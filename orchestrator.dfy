/**
 * The command-line driver: which path a run takes (exit, load or check) from
 * its arguments, its environment and the rate-limit answer; the load loop
 * that fills the tracker from the watch list; and the check loop that
 * compares every tracked repository with what the providers report, updates
 * the tracker and notifies. The check loop is the same in all three versions;
 * the Original version guards it with a rate-limit wait.
 */
module Orchestrator {
  import opened Common
  import opened WatchList
  import opened Tracker
  import opened Providers
  import opened Detector
  import opened Notify

  // ---------------------------------------------------------------------------
  // Start-up

  /** `verify_environment`: the variable's value, None when unset or empty. */
  function Verify(env: map<string, string>, name: string): (v: Option<string>)
    ensures v.Some? <==> name in env && env[name] != ""
    ensures v.Some? ==> v.value == env[name]
  {
    if name in env && env[name] != "" then Some(env[name]) else None
  }

  /** The environment variable holding the webhook URL of provider `p`. */
  function WebhookVariable(p: Provider): string {
    Upper(ProviderName(p)) + "_WEBHOOK"
  }

  /** The command-line switches of every version; a switch a version lacks is a usage error there. */
  datatype Args = Args(prep: bool, load: bool, check: bool, version: bool, examples: bool, provider: Option<Provider>)

  /** How a run continues after start-up. */
  datatype Plan =
    | Exit(code: int)
    | Crash(error: PyError)
    | Load
    | Check(provider: Provider, webhook: string)
    | Finish

  /** How many of the given switches are set. */
  function CountSet(a: bool, b: bool, c: bool, d: bool): nat {
    (if a then 1 else 0) + (if b then 1 else 0) + (if c then 1 else 0) + (if d then 1 else 0)
  }

  predicate TokensPresent(env: map<string, string>) {
    Verify(env, "GITHUB_TOKEN").Some? && Verify(env, "GITLAB_TOKEN").Some?
  }

  /** The rate-limit read answered with a (remaining, reset) pair. */
  predicate RateKnown(rate: PyResult<Option<(int, int)>>) {
    rate.Ok? && rate.value.Some?
  }

  /** The Current argument parser accepts the switches. */
  predicate CurrentArgsAccepted(args: Args) {
    !args.prep && CountSet(args.load, args.version, args.examples, false) <= 1
  }

  /** The Current start-up reaches the rate-limit read: no early exit on the way. */
  predicate CurrentReachesRate(args: Args, env: map<string, string>) {
    CurrentArgsAccepted(args) && !args.version && !args.examples &&
    !(args.check && args.provider.None?) && TokensPresent(env) &&
    (args.provider.Some? ==> Verify(env, WebhookVariable(args.provider.value)).Some?)
  }

  /**
   * Start-up of the Current version: argument checks, tokens, the webhook
   * variable when a provider is given, the database (always prepared), the
   * rate limit, then load before check.
   */
  function CurrentPlan(args: Args, env: map<string, string>, rate: PyResult<Option<(int, int)>>): (p: Plan)
    ensures p == Exit(2) <==> !CurrentArgsAccepted(args)
    ensures p == Exit(0) <==> CurrentArgsAccepted(args) && (args.version || args.examples)
    ensures p == Exit(1) <==> CurrentArgsAccepted(args) && !args.version && !args.examples &&
                              (!CurrentReachesRate(args, env) || rate == Ok(None))
    ensures p.Crash? <==> CurrentReachesRate(args, env) && rate.Raised?
    ensures p.Crash? ==> rate == Raised(p.error)
    ensures p.Load? <==> CurrentReachesRate(args, env) && RateKnown(rate) && args.load
    ensures p.Check? <==> CurrentReachesRate(args, env) && RateKnown(rate) && !args.load && args.check
    ensures p.Check? ==> args.provider == Some(p.provider) && Verify(env, WebhookVariable(p.provider)) == Some(p.webhook)
    ensures p.Finish? <==> CurrentReachesRate(args, env) && RateKnown(rate) && !args.load && !args.check
  {
    if args.prep || CountSet(args.load, args.version, args.examples, false) > 1 then Exit(2)
    else if args.version || args.examples then Exit(0)
    else if args.check && args.provider.None? then Exit(1)
    else if !TokensPresent(env) then Exit(1)
    else if args.provider.Some? && Verify(env, WebhookVariable(args.provider.value)).None? then Exit(1)
    else
      match rate
      case Raised(e) => Crash(e)
      case Ok(status) =>
        if status.None? then Exit(1)
        else if args.load then Load
        else if args.check then Check(args.provider.value, Verify(env, WebhookVariable(args.provider.value)).value)
        else Finish
  }

  /** The Middle argument parser accepts the switches: exactly one mode. */
  predicate MiddleArgsAccepted(args: Args) {
    !args.prep && CountSet(args.load, args.check, args.version, args.examples) == 1
  }

  /** The Middle start-up reaches the rate-limit read. */
  predicate MiddleReachesRate(args: Args, env: map<string, string>) {
    MiddleArgsAccepted(args) && !args.version && args.provider.Some? && TokensPresent(env) &&
    Verify(env, WebhookVariable(args.provider.value)).Some?
  }

  /**
   * Start-up of the Middle version: exactly one of load, check, version and
   * examples; a provider and its webhook variable are always required; the
   * examples switch is accepted but does nothing.
   */
  function MiddlePlan(args: Args, env: map<string, string>, rate: PyResult<Option<(int, int)>>): (p: Plan)
    ensures p == Exit(2) <==> !MiddleArgsAccepted(args)
    ensures p == Exit(0) <==> MiddleArgsAccepted(args) && args.version
    ensures MiddleArgsAccepted(args) && !args.version && args.provider.None? ==> p == Exit(1)
    ensures p == Exit(1) <==> MiddleArgsAccepted(args) && !args.version &&
                              (!MiddleReachesRate(args, env) || rate == Ok(None))
    ensures p.Crash? <==> MiddleReachesRate(args, env) && rate.Raised?
    ensures p.Crash? ==> rate == Raised(p.error)
    ensures p.Load? <==> MiddleReachesRate(args, env) && RateKnown(rate) && args.load
    ensures p.Check? <==> MiddleReachesRate(args, env) && RateKnown(rate) && args.check
    ensures p.Check? ==> args.provider == Some(p.provider) && Verify(env, WebhookVariable(p.provider)) == Some(p.webhook)
    ensures p.Finish? <==> MiddleReachesRate(args, env) && RateKnown(rate) && args.examples
  {
    if args.prep || CountSet(args.load, args.check, args.version, args.examples) != 1 then Exit(2)
    else if args.version then Exit(0)
    else if args.provider.None? then Exit(1)
    else if !TokensPresent(env) then Exit(1)
    else if Verify(env, WebhookVariable(args.provider.value)).None? then Exit(1)
    else
      match rate
      case Raised(e) => Crash(e)
      case Ok(status) =>
        if status.None? then Exit(1)
        else if args.load then Load
        else if args.check then Check(args.provider.value, Verify(env, WebhookVariable(args.provider.value)).value)
        else Finish
  }

  /** The Original argument parser accepts the switches: exactly one of its four modes, nothing else. */
  predicate OriginalArgsAccepted(args: Args) {
    !args.examples && args.provider.None? && CountSet(args.prep, args.load, args.check, args.version) == 1
  }

  /** The Original start-up gets past its environment checks. */
  predicate OriginalEnvReady(args: Args, env: map<string, string>) {
    OriginalArgsAccepted(args) && !args.version && TokensPresent(env) && Verify(env, "ROCKETCHAT_WEBHOOK").Some?
  }

  /**
   * Start-up of the Original version: exactly one of prep, load, check and
   * version; both tokens and `ROCKETCHAT_WEBHOOK` are required before any
   * mode runs. Prep exits 1 when the table exists and 0 after creating it.
   */
  function OriginalPlan(args: Args, env: map<string, string>, hasTable: bool,
                        rate: PyResult<Option<(int, int)>>): (p: Plan)
    ensures p == Exit(2) <==> !OriginalArgsAccepted(args)
    ensures p == Exit(0) <==> OriginalArgsAccepted(args) &&
                              (args.version || (OriginalEnvReady(args, env) && args.prep && !hasTable))
    ensures p == Exit(1) <==> OriginalArgsAccepted(args) && !args.version &&
                              (!OriginalEnvReady(args, env) || (args.prep && hasTable) ||
                               (!args.prep && rate == Ok(None)))
    ensures p.Crash? <==> OriginalEnvReady(args, env) && !args.prep && rate.Raised?
    ensures p.Crash? ==> rate == Raised(p.error)
    ensures p.Load? <==> OriginalEnvReady(args, env) && RateKnown(rate) && args.load
    ensures p.Check? <==> OriginalEnvReady(args, env) && RateKnown(rate) && args.check
    ensures p.Check? ==> p.provider == RocketChat && Verify(env, "ROCKETCHAT_WEBHOOK") == Some(p.webhook)
    ensures !p.Finish?
  {
    if args.examples || args.provider.Some? || CountSet(args.prep, args.load, args.check, args.version) != 1 then Exit(2)
    else if args.version then Exit(0)
    else if !TokensPresent(env) || Verify(env, "ROCKETCHAT_WEBHOOK").None? then Exit(1)
    else if args.prep then Exit(if hasTable then 1 else 0)
    else
      match rate
      case Raised(e) => Crash(e)
      case Ok(status) =>
        if status.None? then Exit(1)
        else if args.load then Load
        else Check(RocketChat, Verify(env, "ROCKETCHAT_WEBHOOK").value)
  }

  /** The webhook variable each provider reads. */
  lemma WebhookVariables()
    ensures WebhookVariable(RocketChat) == "ROCKETCHAT_WEBHOOK"
    ensures WebhookVariable(Discord) == "DISCORD_WEBHOOK"
    ensures WebhookVariable(MsTeams) == "MSTEAMS_WEBHOOK"
    ensures WebhookVariable(Slack) == "SLACK_WEBHOOK"
  {
    assert Upper("rocketchat") == "ROCKETCHAT";
    assert Upper("discord") == "DISCORD";
    assert Upper("msteams") == "MSTEAMS";
    assert Upper("slack") == "SLACK";
  }

  /**
   * Loading without a provider: the Current version needs no webhook for it,
   * the Middle version exits 1.
   */
  lemma LoadNoLongerNeedsProvider(env: map<string, string>, remaining: int, reset: int)
    requires TokensPresent(env)
    ensures CurrentPlan(Args(false, true, false, false, false, None), env, Ok(Some((remaining, reset)))) == Load
    ensures MiddlePlan(Args(false, true, false, false, false, None), env, Ok(Some((remaining, reset)))) == Exit(1)
  {
  }

  /** In the Current version a load request wins over a check request. */
  lemma LoadWinsOverCheck(env: map<string, string>, p: Provider, remaining: int, reset: int)
    requires TokensPresent(env) && Verify(env, WebhookVariable(p)).Some?
    ensures CurrentPlan(Args(false, true, true, false, false, Some(p)), env, Ok(Some((remaining, reset)))) == Load
  {
  }

  /** A check without a provider exits 1 in the Current version, whatever the environment. */
  lemma CheckNeedsProvider(env: map<string, string>, rate: PyResult<Option<(int, int)>>)
    ensures CurrentPlan(Args(false, false, true, false, false, None), env, rate) == Exit(1)
  {
  }

  /** The `--prep` path of Original: exit 1 when the table exists, otherwise create it and exit 0. */
  method OriginalPrep(db: TrackerDb) returns (code: int)
    requires db.Valid()
    modifies db
    ensures code == (if old(db.hasTable) then 1 else 0)
    ensures db.hasTable && db.rows == old(db.rows)
  {
    var present := db.ConfirmTable();
    if present {
      return 1;
    }
    var created := db.BootstrapDb();
    code := if created then 0 else 1;
  }

  // ---------------------------------------------------------------------------
  // The load loop

  /** The load loop: every watch-list entry not yet confirmed is inserted with the run's timestamp. */
  method LoadRepositories(db: TrackerDb, repositories: seq<Entry>, now: string)
    requires db.hasTable
    modifies db
    ensures db.hasTable
    ensures db.rows == LoadAll(old(db.rows), repositories, now)
  {
    var i := 0;
    while i < |repositories|
      invariant 0 <= i <= |repositories|
      invariant db.hasTable
      invariant LoadAll(db.rows, repositories[i..], now) == LoadAll(old(db.rows), repositories, now)
    {
      var repo := repositories[i];
      assert repositories[i..][0] == repo && repositories[i..][1..] == repositories[i + 1..];
      var confirmation := db.ConfirmRepo(repo.owner, repo.repo);
      if !confirmation {
        db.InsertRepo(repo.owner, repo.repo, now, repo.host);
      }
      i := i + 1;
    }
  }

  // ---------------------------------------------------------------------------
  // The check loop

  /** What the two classifiers reported for one repository, as text. */
  datatype Fetched = Fetched(release: PyResult<Option<string>>, commit: PyResult<Option<string>>)

  /** A classifier result whose reported reference, if any, is a JSON string. */
  predicate TextReference(res: PyResult<Option<Json>>) {
    res.Ok? && res.value.Some? ==> res.value.value.JStr?
  }

  function AsText(res: PyResult<Option<Json>>): (t: PyResult<Option<string>>)
    requires TextReference(res)
    ensures t.Raised? <==> res.Raised?
    ensures t.Raised? ==> t.error == res.error
    ensures t.Ok? ==> (t.value.Some? <==> res.value.Some?)
    ensures t.Ok? && t.value.Some? ==> res.value.value == JStr(t.value.value)
  {
    match res
    case Raised(e) => Raised(e)
    case Ok(None) => Ok(None)
    case Ok(Some(j)) => Ok(Some(j.s))
  }

  /** The classifiers the check loop calls for a row of this host, in this version. */
  function Observe(host: Host, v: Version, releaseResponse: Response, commitResponse: Response): (f: Fetched)
    requires host == GitHub ==> TextReference(GitHubLatestRelease(releaseResponse)) && TextReference(GitHubLatestCommit(commitResponse))
    requires host == GitLab ==> TextReference(GitLabLatestRelease(releaseResponse)) &&
                                TextReference(GitLabLatestCommit(commitResponse, v == Current))
    ensures IsJson(releaseResponse) == Ok(false) ==>
      f.release == (if host == GitHub then Ok(None) else Raised(UnboundLocalError))
    ensures host == GitHub && !ResponseOk(commitResponse.status) ==> f.commit == Ok(None)
    ensures host == GitLab && commitResponse.status == 401 && IsJson(commitResponse) == Ok(true) &&
            commitResponse.body.Some? && commitResponse.body.value.JObj? ==>
      f.commit == (if v == Current then Ok(None) else Raised(KeyError))
    ensures host == GitHub && releaseResponse.body.Some? && releaseResponse.body.value.JObj? &&
            IsJson(releaseResponse) == Ok(true) && HasTruthy(releaseResponse.body.value, "html_url") ==>
      f.release.Ok? && f.release.value.Some? && JStr(f.release.value.value) == releaseResponse.body.value.fields["html_url"]
  {
    match host
    case GitHub => Fetched(AsText(GitHubLatestRelease(releaseResponse)), AsText(GitHubLatestCommit(commitResponse)))
    case GitLab => Fetched(AsText(GitLabLatestRelease(releaseResponse)), AsText(GitLabLatestCommit(commitResponse, v == Current)))
  }

  /** Everything the check loop changes, and the exception that ended it, if any. */
  datatype CheckState = CheckState(rows: seq<Row>, out: Outbox, announced: seq<string>, failure: Option<PyError>)

  /** `update_tracker` with the observed pair, then the notification with its back-off. */
  function Announce(c: Channel, st: CheckState, row: Row, release: Option<string>, commit: Option<string>,
                    message: string, now: string): CheckState
  {
    var (r, out) := Deliver(c, st.out, message);
    CheckState(Updated(st.rows, commit, release, now, row.owner, row.repo, row.website), out,
               st.announced + [message], if r.Raised? then Some(r.error) else None)
  }

  /** The texts of one row announced in order, each as above; the first exception stops the rest. */
  function AnnounceAll(c: Channel, st: CheckState, row: Row, release: Option<string>, commit: Option<string>,
                       messages: seq<string>, now: string): CheckState
    decreases |messages|
  {
    if messages == [] || st.failure.Some? then st
    else AnnounceAll(c, Announce(c, st, row, release, commit, messages[0], now), row, release, commit, messages[1..], now)
  }

  /**
   * One iteration of the check loop, for the snapshot row `row`: both
   * classifiers are asked first, then the texts `Transition` yields are
   * announced, the release before the commit.
   */
  function CheckRow(c: Channel, st: CheckState, row: Row, f: Fetched, now: string): CheckState {
    match f.release
    case Raised(e) => st.(failure := Some(e))
    case Ok(release) =>
      match f.commit
      case Raised(e) => st.(failure := Some(e))
      case Ok(commit) => AnnounceAll(c, st, row, release, commit, Transition(row, release, commit, now).messages, now)
  }

  /**
   * The loop body as the source writes it: the release test, its update and
   * notification, then the commit test, its update and notification.
   */
  lemma CheckRowAsWritten(c: Channel, st: CheckState, row: Row, release: Option<string>, commit: Option<string>,
                          now: string)
    requires st.failure.None?
    ensures CheckRow(c, st, row, Fetched(Ok(release), Ok(commit)), now) ==
      var st1 := if Changed(row.latestRelease, release)
                 then Announce(c, st, row, release, commit, ReleaseMessage(row.repo, release.value), now)
                 else st;
      if st1.failure.Some? then st1
      else if Changed(row.latestCommit, commit)
      then Announce(c, st1, row, release, commit, CommitMessage(row.repo, commit.value), now)
      else st1
  {
    var messages := Transition(row, release, commit, now).messages;
    if Changed(row.latestRelease, release) {
      var st1 := Announce(c, st, row, release, commit, ReleaseMessage(row.repo, release.value), now);
      assert messages[0] == ReleaseMessage(row.repo, release.value);
      assert AnnounceAll(c, st, row, release, commit, messages, now)
          == AnnounceAll(c, st1, row, release, commit, messages[1..], now);
      if Changed(row.latestCommit, commit) {
        assert messages[1..] == [CommitMessage(row.repo, commit.value)];
        if st1.failure.None? {
          var st2 := Announce(c, st1, row, release, commit, CommitMessage(row.repo, commit.value), now);
          assert AnnounceAll(c, st2, row, release, commit, [], now) == st2;
        }
      } else {
        assert messages[1..] == [];
        assert AnnounceAll(c, st1, row, release, commit, [], now) == st1;
      }
    } else if Changed(row.latestCommit, commit) {
      assert messages == [CommitMessage(row.repo, commit.value)];
      var st2 := Announce(c, st, row, release, commit, CommitMessage(row.repo, commit.value), now);
      assert messages[1..] == [];
      assert AnnounceAll(c, st, row, release, commit, messages, now)
          == AnnounceAll(c, st2, row, release, commit, [], now) == st2;
    } else {
      assert messages == [];
    }
  }

  /** The check loop over a snapshot of the table; an exception ends it. */
  function CheckAll(c: Channel, st: CheckState, snapshot: seq<Row>, fetched: seq<Fetched>, now: string): CheckState
    requires |fetched| == |snapshot|
    decreases |snapshot|
  {
    if snapshot == [] || st.failure.Some? then st
    else CheckAll(c, CheckRow(c, st, snapshot[0], fetched[0], now), snapshot[1..], fetched[1..], now)
  }

  /** The check loop over the rows read from the table, notifying through `d`. */
  method CheckLoop(db: TrackerDb, d: Dispatcher, repositories: seq<Row>, fetched: seq<Fetched>, now: string)
    returns (announced: seq<string>, failure: Option<PyError>)
    requires db.hasTable && |fetched| == |repositories|
    modifies db, d
    ensures db.hasTable
    ensures CheckState(db.rows, d.State(), announced, failure)
         == CheckAll(d.channel, CheckState(old(db.rows), old(d.State()), [], None), repositories, fetched, now)
  {
    announced := [];
    failure := None;
    var i := 0;
    while i < |repositories|
      invariant 0 <= i <= |repositories|
      invariant db.hasTable
      invariant CheckAll(d.channel, CheckState(db.rows, d.State(), announced, None), repositories[i..], fetched[i..], now)
             == CheckAll(d.channel, CheckState(old(db.rows), old(d.State()), [], None), repositories, fetched, now)
    {
      var repo := repositories[i];
      var f := fetched[i];
      ghost var st := CheckState(db.rows, d.State(), announced, None);
      assert repositories[i..][0] == repo && repositories[i..][1..] == repositories[i + 1..];
      assert fetched[i..][0] == f && fetched[i..][1..] == fetched[i + 1..];
      ghost var next := CheckRow(d.channel, st, repo, f, now);
      assert CheckAll(d.channel, st, repositories[i..], fetched[i..], now)
          == CheckAll(d.channel, next, repositories[i + 1..], fetched[i + 1..], now);
      if f.release.Raised? {
        failure := Some(f.release.error);
        return;
      }
      if f.commit.Raised? {
        failure := Some(f.commit.error);
        return;
      }
      var release := f.release.value;
      var commit := f.commit.value;
      assert f == Fetched(Ok(release), Ok(commit));
      CheckRowAsWritten(d.channel, st, repo, release, commit, now);
      if Changed(repo.latestRelease, release) {
        db.UpdateTracker(commit, release, now, repo.owner, repo.repo, repo.website);
        var message := ReleaseMessage(repo.repo, release.value);
        var r := d.Notify(message);
        announced := announced + [message];
        if r.Raised? {
          failure := Some(r.error);
          return;
        }
      }
      if Changed(repo.latestCommit, commit) {
        db.UpdateTracker(commit, release, now, repo.owner, repo.repo, repo.website);
        var message := CommitMessage(repo.repo, commit.value);
        var r := d.Notify(message);
        announced := announced + [message];
        if r.Raised? {
          failure := Some(r.error);
          return;
        }
      }
      i := i + 1;
    }
  }

  /** The check path of Middle and Current: read the table, then run the loop. */
  method CheckRepositories(db: TrackerDb, d: Dispatcher, fetched: seq<Fetched>, now: string)
    returns (announced: seq<string>, failure: Option<PyError>)
    requires db.hasTable && |fetched| == |db.rows|
    modifies db, d
    ensures db.hasTable
    ensures CheckState(db.rows, d.State(), announced, failure)
         == CheckAll(d.channel, CheckState(old(db.rows), old(d.State()), [], None), old(db.rows), fetched, now)
  {
    var repositories := db.ReadRepositories();
    announced, failure := CheckLoop(db, d, repositories, fetched, now);
  }

  /**
   * The rate-limit wait of the Original check path: when fewer requests remain
   * than repositories are tracked (`remaining // count == 0`), sleep until the
   * reset time. An empty table divides by zero; a reset time already past is a
   * negative sleep, which raises.
   */
  function RateGate(remaining: int, count: nat, reset: int, nowEpoch: int): (r: PyResult<Option<int>>)
    ensures r == Raised(ZeroDivisionError) <==> count == 0
    ensures r.Ok? && r.value.Some? <==> count > 0 && 0 <= remaining < count && reset >= nowEpoch
    ensures r == Raised(ValueError) <==> count > 0 && 0 <= remaining < count && reset < nowEpoch
    ensures r.Ok? && r.value.Some? ==> r.value.value == reset - nowEpoch
    ensures r.Raised? ==> r.error == ZeroDivisionError || r.error == ValueError
    ensures r == Ok(None) <==> count > 0 && !(0 <= remaining < count)
  {
    if count == 0 then Raised(ZeroDivisionError)
    else
      FloorDivisionIsZero(remaining, count);
      if remaining / count == 0 then
        (if reset - nowEpoch < 0 then Raised(ValueError) else Ok(Some(reset - nowEpoch)))
      else Ok(None)
  }

  /** For a positive divisor, `x // n == 0` exactly when `0 <= x < n`. */
  lemma FloorDivisionIsZero(x: int, n: int)
    requires n > 0
    ensures x / n == 0 <==> 0 <= x < n
  {
    if x / n == 0 {
      assert x == n * (x / n) + x % n;
    }
  }

  /** The check path of Original: read the table, wait for the rate limit if needed, then run the loop. */
  method OriginalCheckRepositories(db: TrackerDb, d: Dispatcher, remaining: int, reset: int, nowEpoch: int,
                                   fetched: seq<Fetched>, now: string)
    returns (slept: Option<int>, announced: seq<string>, failure: Option<PyError>)
    requires db.hasTable && |fetched| == |db.rows|
    modifies db, d
    ensures db.hasTable
    ensures match RateGate(remaining, |old(db.rows)|, reset, nowEpoch)
            case Raised(e) =>
              failure == Some(e) && announced == [] && db.rows == old(db.rows) && d.State() == old(d.State())
            case Ok(wait) =>
              slept == wait &&
              CheckState(db.rows, d.State(), announced, failure)
                == CheckAll(d.channel, CheckState(old(db.rows), old(d.State()), [], None), old(db.rows), fetched, now)
  {
    var repositories := db.ReadRepositories();
    var gate := RateGate(remaining, |repositories|, reset, nowEpoch);
    match gate
    case Raised(e) =>
      return None, [], Some(e);
    case Ok(wait) =>
      slept := wait;
      announced, failure := CheckLoop(db, d, repositories, fetched, now);
  }

  // ---------------------------------------------------------------------------
  // Properties of the check loop

  /** The loop only rewrites rows in place: the table keeps its length and its keys. */
  lemma {:induction false} CheckKeepsKeys(c: Channel, st: CheckState, snapshot: seq<Row>, fetched: seq<Fetched>, now: string)
    requires |fetched| == |snapshot|
    ensures var end := CheckAll(c, st, snapshot, fetched, now);
      |end.rows| == |st.rows| &&
      forall k :: 0 <= k < |st.rows| ==>
        end.rows[k].owner == st.rows[k].owner && end.rows[k].repo == st.rows[k].repo &&
        end.rows[k].website == st.rows[k].website
    decreases |snapshot|
  {
    if snapshot != [] && st.failure.None? {
      var f := fetched[0];
      if f.release.Ok? && f.commit.Ok? {
        var row := snapshot[0];
        AnnounceAllKeepsKeys(c, st, row, f.release.value, f.commit.value,
                             Transition(row, f.release.value, f.commit.value, now).messages, now);
      }
      var next := CheckRow(c, st, snapshot[0], f, now);
      CheckKeepsKeys(c, next, snapshot[1..], fetched[1..], now);
    }
  }

  /** Announcing only rewrites rows in place: the table keeps its length and its keys. */
  lemma {:induction false} AnnounceAllKeepsKeys(c: Channel, st: CheckState, row: Row, release: Option<string>,
                                                commit: Option<string>, messages: seq<string>, now: string)
    ensures var end := AnnounceAll(c, st, row, release, commit, messages, now);
      |end.rows| == |st.rows| &&
      forall k :: 0 <= k < |st.rows| ==>
        end.rows[k].owner == st.rows[k].owner && end.rows[k].repo == st.rows[k].repo &&
        end.rows[k].website == st.rows[k].website
    decreases |messages|
  {
    if messages != [] && st.failure.None? {
      var next := Announce(c, st, row, release, commit, messages[0], now);
      AnnounceAllKeepsKeys(c, next, row, release, commit, messages[1..], now);
    }
  }

  /**
   * Announcing a row's texts without an exception announces them all, in
   * order, and leaves the table as one update with the observed pair does
   * (no update at all when there is nothing to announce).
   */
  lemma {:induction false} AnnounceAllEffect(c: Channel, st: CheckState, row: Row, release: Option<string>,
                                             commit: Option<string>, messages: seq<string>, now: string)
    requires st.failure.None?
    requires AnnounceAll(c, st, row, release, commit, messages, now).failure.None?
    ensures var end := AnnounceAll(c, st, row, release, commit, messages, now);
      end.announced == st.announced + messages &&
      end.rows == (if messages == [] then st.rows
                   else Updated(st.rows, commit, release, now, row.owner, row.repo, row.website))
    decreases |messages|
  {
    if messages != [] {
      var next := Announce(c, st, row, release, commit, messages[0], now);
      assert AnnounceAll(c, st, row, release, commit, messages, now)
          == AnnounceAll(c, next, row, release, commit, messages[1..], now);
      assert next.failure.None?;
      AnnounceAllEffect(c, next, row, release, commit, messages[1..], now);
      if messages[1..] != [] {
        UpdateIdempotent(st.rows, commit, release, now, row.owner, row.repo, row.website);
      }
      assert st.announced + [messages[0]] + messages[1..] == st.announced + messages;
    }
  }

  /** With a usable spool file, announcing never raises and leaves the spool usable. */
  lemma {:induction false} AnnounceAllUsable(c: Channel, st: CheckState, row: Row, release: Option<string>,
                                             commit: Option<string>, messages: seq<string>, now: string)
    requires st.failure.None? && SpoolUsable(c.version, st.out.spool)
    ensures AnnounceAll(c, st, row, release, commit, messages, now).failure.None?
    ensures SpoolUsable(c.version, AnnounceAll(c, st, row, release, commit, messages, now).out.spool)
    decreases |messages|
  {
    if messages != [] {
      DeliverOnUsableSpool(c, st.out, messages[0]);
      var next := Announce(c, st, row, release, commit, messages[0], now);
      AnnounceAllUsable(c, next, row, release, commit, messages[1..], now);
    }
  }

  /**
   * One row step when nothing fails: the rows carrying the checked key end
   * as `Transition` says, every other row is untouched, and the texts
   * `Transition` produces are announced.
   */
  lemma CheckRowEffect(c: Channel, st: CheckState, row: Row, release: Option<string>, commit: Option<string>, now: string)
    requires st.failure.None?
    requires CheckRow(c, st, row, Fetched(Ok(release), Ok(commit)), now).failure.None?
    ensures var next := CheckRow(c, st, row, Fetched(Ok(release), Ok(commit)), now);
      var o := Transition(row, release, commit, now);
      |next.rows| == |st.rows| &&
      next.announced == st.announced + o.messages &&
      (forall k :: 0 <= k < |st.rows| && !HasKey(st.rows[k], row.owner, row.repo, row.website) ==> next.rows[k] == st.rows[k]) &&
      (forall k :: 0 <= k < |st.rows| && st.rows[k] == row ==> next.rows[k] == o.row)
  {
    var o := Transition(row, release, commit, now);
    var next := CheckRow(c, st, row, Fetched(Ok(release), Ok(commit)), now);
    AnnounceAllEffect(c, st, row, release, commit, o.messages, now);
    forall k | 0 <= k < |st.rows| && st.rows[k] == row ensures next.rows[k] == o.row {
      if o.messages != [] {
        assert HasKey(st.rows[k], row.owner, row.repo, row.website);
      }
    }
  }

  /** The texts a finished loop announced: those of every row's `Transition`, in table order. */
  function AllMessages(snapshot: seq<Row>, fetched: seq<Fetched>, now: string): seq<string>
    requires |fetched| == |snapshot|
    requires forall k :: 0 <= k < |fetched| ==> fetched[k].release.Ok? && fetched[k].commit.Ok?
    decreases |snapshot|
  {
    if snapshot == [] then []
    else Transition(snapshot[0], fetched[0].release.value, fetched[0].commit.value, now).messages
         + AllMessages(snapshot[1..], fetched[1..], now)
  }

  /** The table as a finished loop leaves it: every row replaced by its `Transition` row. */
  function AllRows(snapshot: seq<Row>, fetched: seq<Fetched>, now: string): (rows: seq<Row>)
    requires |fetched| == |snapshot|
    requires forall k :: 0 <= k < |fetched| ==> fetched[k].release.Ok? && fetched[k].commit.Ok?
    ensures |rows| == |snapshot|
  {
    seq(|snapshot|, k requires 0 <= k < |snapshot| =>
      Transition(snapshot[k], fetched[k].release.value, fetched[k].commit.value, now).row)
  }

  /**
   * When no repository repeats an owner/repo pair and nothing raises, one run
   * of the check loop leaves every row as `Transition` says and announces
   * exactly the texts `Transition` produces, row after row.
   */
  lemma CheckAllIsPointwise(c: Channel, st: CheckState, done: seq<Row>, snapshot: seq<Row>,
                             fetched: seq<Fetched>, now: string)
    requires |fetched| == |snapshot| && st.failure.None?
    requires forall k :: 0 <= k < |fetched| ==> fetched[k].release.Ok? && fetched[k].commit.Ok?
    requires Distinct(done + snapshot) && st.rows == done + snapshot
    requires CheckAll(c, st, snapshot, fetched, now).failure.None?
    ensures var end := CheckAll(c, st, snapshot, fetched, now);
      end.rows == done + AllRows(snapshot, fetched, now) &&
      end.announced == st.announced + AllMessages(snapshot, fetched, now)
  {
    CheckAllRows(c, st, done, snapshot, fetched, now);
    CheckAllAnnounces(c, st, snapshot, fetched, now);
  }

  /** The rows part of the pointwise description, by induction over the snapshot. */
  lemma {:induction false} CheckAllRows(c: Channel, st: CheckState, done: seq<Row>, snapshot: seq<Row>,
                                        fetched: seq<Fetched>, now: string)
    requires |fetched| == |snapshot| && st.failure.None?
    requires forall k :: 0 <= k < |fetched| ==> fetched[k].release.Ok? && fetched[k].commit.Ok?
    requires Distinct(done + snapshot) && st.rows == done + snapshot
    requires CheckAll(c, st, snapshot, fetched, now).failure.None?
    ensures CheckAll(c, st, snapshot, fetched, now).rows == done + AllRows(snapshot, fetched, now)
    decreases |snapshot|
  {
    if snapshot == [] {
      assert st.rows == done + [];
    } else {
      var o := Transition(snapshot[0], fetched[0].release.value, fetched[0].commit.value, now);
      var next := FirstStep(c, st, done, snapshot, fetched, now);
      var restFetched := fetched[1..];
      forall k | 0 <= k < |restFetched| ensures restFetched[k].release.Ok? && restFetched[k].commit.Ok? {
        assert restFetched[k] == fetched[k + 1];
      }
      CheckAllRows(c, next, done + [o.row], snapshot[1..], restFetched, now);
      var rows := AllRows(snapshot[1..], restFetched, now);
      AllRowsCons(snapshot, fetched, now);
      AppendAssociates(done, [o.row], rows);
    }
  }

  /** The announced part of the pointwise description, by induction over the snapshot. */
  lemma {:induction false} CheckAllAnnounces(c: Channel, st: CheckState, snapshot: seq<Row>,
                                             fetched: seq<Fetched>, now: string)
    requires |fetched| == |snapshot| && st.failure.None?
    requires forall k :: 0 <= k < |fetched| ==> fetched[k].release.Ok? && fetched[k].commit.Ok?
    requires CheckAll(c, st, snapshot, fetched, now).failure.None?
    ensures CheckAll(c, st, snapshot, fetched, now).announced == st.announced + AllMessages(snapshot, fetched, now)
    decreases |snapshot|
  {
    if snapshot == [] {
      assert st.announced + [] == st.announced;
    } else {
      var release, commit := fetched[0].release.value, fetched[0].commit.value;
      assert fetched[0] == Fetched(Ok(release), Ok(commit));
      var o := Transition(snapshot[0], release, commit, now);
      var next := CheckRow(c, st, snapshot[0], fetched[0], now);
      assert next.failure.None?;
      CheckRowEffect(c, st, snapshot[0], release, commit, now);
      var restFetched := fetched[1..];
      forall k | 0 <= k < |restFetched| ensures restFetched[k].release.Ok? && restFetched[k].commit.Ok? {
        assert restFetched[k] == fetched[k + 1];
      }
      CheckAllAnnounces(c, next, snapshot[1..], restFetched, now);
      var messages := AllMessages(snapshot[1..], restFetched, now);
      assert AllMessages(snapshot, fetched, now) == o.messages + messages;
      AppendAssociates(st.announced, o.messages, messages);
    }
  }

  /** The state after the first row of a failure-free run, as the induction above needs it. */
  lemma FirstStep(c: Channel, st: CheckState, done: seq<Row>, snapshot: seq<Row>, fetched: seq<Fetched>, now: string)
    returns (next: CheckState)
    requires |fetched| == |snapshot| && snapshot != [] && st.failure.None?
    requires forall k :: 0 <= k < |fetched| ==> fetched[k].release.Ok? && fetched[k].commit.Ok?
    requires Distinct(done + snapshot) && st.rows == done + snapshot
    requires CheckAll(c, st, snapshot, fetched, now).failure.None?
    ensures var o := Transition(snapshot[0], fetched[0].release.value, fetched[0].commit.value, now);
      CheckAll(c, st, snapshot, fetched, now) == CheckAll(c, next, snapshot[1..], fetched[1..], now) &&
      next.failure.None? &&
      next.rows == done + [o.row] + snapshot[1..] && Distinct(done + [o.row] + snapshot[1..])
  {
    var release, commit := fetched[0].release.value, fetched[0].commit.value;
    assert fetched[0] == Fetched(Ok(release), Ok(commit));
    next := CheckRow(c, st, snapshot[0], fetched[0], now);
    var o := Transition(snapshot[0], release, commit, now);
    StepRewritesRow(c, st, done, snapshot, release, commit, now);
    assert done + [o.row] + snapshot[1..] == (done + snapshot)[|done| := o.row];
    ReplaceKeepsDistinct(done + snapshot, |done|, o.row);
  }

  lemma AllRowsCons(snapshot: seq<Row>, fetched: seq<Fetched>, now: string)
    requires |fetched| == |snapshot| && snapshot != []
    requires forall k :: 0 <= k < |fetched| ==> fetched[k].release.Ok? && fetched[k].commit.Ok?
    ensures AllRows(snapshot, fetched, now) ==
      [Transition(snapshot[0], fetched[0].release.value, fetched[0].commit.value, now).row] +
      AllRows(snapshot[1..], fetched[1..], now)
  {
  }

  /** One failure-free step rewrites exactly the checked row of a table without repeated pairs. */
  lemma StepRewritesRow(c: Channel, st: CheckState, done: seq<Row>, snapshot: seq<Row>,
                        release: Option<string>, commit: Option<string>, now: string)
    requires snapshot != [] && st.failure.None?
    requires Distinct(done + snapshot) && st.rows == done + snapshot
    requires CheckRow(c, st, snapshot[0], Fetched(Ok(release), Ok(commit)), now).failure.None?
    ensures var next := CheckRow(c, st, snapshot[0], Fetched(Ok(release), Ok(commit)), now);
      var o := Transition(snapshot[0], release, commit, now);
      next.rows == (done + snapshot)[|done| := o.row] &&
      next.announced == st.announced + o.messages
  {
    var all := done + snapshot;
    var next := CheckRow(c, st, snapshot[0], Fetched(Ok(release), Ok(commit)), now);
    var o := Transition(snapshot[0], release, commit, now);
    CheckRowEffect(c, st, snapshot[0], release, commit, now);
    KeyOnlyAtDone(done, snapshot);
    forall k | 0 <= k < |all| ensures next.rows[k] == all[|done| := o.row][k] {
      if k == |done| {
        assert all[k] == snapshot[0];
      }
    }
  }

  /** In a table without repeated pairs, only the first snapshot row carries its key. */
  lemma KeyOnlyAtDone(done: seq<Row>, snapshot: seq<Row>)
    requires snapshot != [] && Distinct(done + snapshot)
    ensures forall k :: 0 <= k < |done + snapshot| && k != |done| ==>
      !HasKey((done + snapshot)[k], snapshot[0].owner, snapshot[0].repo, snapshot[0].website)
  {
    var all := done + snapshot;
    assert all[|done|] == snapshot[0];
    forall k | 0 <= k < |all| && k != |done|
      ensures !HasKey(all[k], snapshot[0].owner, snapshot[0].repo, snapshot[0].website)
    {
      if k < |done| {
        assert !Names(all[k], all[|done|].owner, all[|done|].repo);
      } else {
        assert !Names(all[|done|], all[k].owner, all[k].repo);
      }
    }
  }

  /** Rewriting one row without changing its pair keeps the pairs distinct. */
  lemma ReplaceKeepsDistinct(rows: seq<Row>, i: nat, r: Row)
    requires i < |rows| && Distinct(rows)
    requires r.owner == rows[i].owner && r.repo == rows[i].repo
    ensures Distinct(rows[i := r])
  {
    var after := rows[i := r];
    forall a, b | 0 <= a < b < |after|
      ensures !Names(after[a], after[b].owner, after[b].repo)
    {
      assert Names(after[a], rows[a].owner, rows[a].repo);
      assert Names(after[b], rows[b].owner, rows[b].repo);
    }
  }

  /** Re-running the transitions on the rows they produced, with the same observations, announces nothing. */
  lemma {:induction false} SettledTransitionsAreQuiet(snapshot: seq<Row>, fetched: seq<Fetched>, now: string, later: string)
    requires |fetched| == |snapshot|
    requires forall k :: 0 <= k < |fetched| ==> fetched[k].release.Ok? && fetched[k].commit.Ok?
    ensures AllMessages(AllRows(snapshot, fetched, now), fetched, later) == []
    ensures AllRows(AllRows(snapshot, fetched, now), fetched, later) == AllRows(snapshot, fetched, now)
    decreases |snapshot|
  {
    if snapshot != [] {
      var settled := AllRows(snapshot, fetched, now);
      TransitionSettles(snapshot[0], fetched[0].release.value, fetched[0].commit.value, now, later);
      assert settled[1..] == AllRows(snapshot[1..], fetched[1..], now);
      SettledTransitionsAreQuiet(snapshot[1..], fetched[1..], now, later);
      forall k | 0 <= k < |settled| ensures AllRows(settled, fetched, later)[k] == settled[k] {
        TransitionSettles(snapshot[k], fetched[k].release.value, fetched[k].commit.value, now, later);
      }
    }
  }

  /**
   * A second check run, over the table the first failure-free run left and
   * with the same observations, announces nothing, raises nothing and leaves
   * the table as it was.
   */
  lemma SecondCheckIsQuiet(c: Channel, st: CheckState, snapshot: seq<Row>, fetched: seq<Fetched>,
                           now: string, later: string)
    requires |fetched| == |snapshot| && st.failure.None?
    requires forall k :: 0 <= k < |fetched| ==> fetched[k].release.Ok? && fetched[k].commit.Ok?
    requires Distinct(snapshot) && st.rows == snapshot
    requires SpoolUsable(c.version, st.out.spool)
    ensures var first := CheckAll(c, st, snapshot, fetched, now);
      |first.rows| == |snapshot| &&
      var second := CheckAll(c, CheckState(first.rows, first.out, [], None), first.rows, fetched, later);
      second.failure.None? && second.announced == [] && second.rows == first.rows
  {
    var first := CheckAll(c, st, snapshot, fetched, now);
    CheckCompletes(c, st, snapshot, fetched, now);
    assert Distinct([] + snapshot) && st.rows == [] + snapshot;
    CheckAllIsPointwise(c, st, [], snapshot, fetched, now);
    var rows := AllRows(snapshot, fetched, now);
    assert first.rows == rows;
    AllRowsKeepDistinct(snapshot, fetched, now);
    var st2 := CheckState(rows, first.out, [], None);
    CheckCompletes(c, st2, rows, fetched, later);
    assert Distinct([] + rows) && st2.rows == [] + rows;
    CheckAllIsPointwise(c, st2, [], rows, fetched, later);
    SettledTransitionsAreQuiet(snapshot, fetched, now, later);
  }

  /** The transitions keep every owner/repo pair, so a table without repeats stays without. */
  lemma AllRowsKeepDistinct(snapshot: seq<Row>, fetched: seq<Fetched>, now: string)
    requires |fetched| == |snapshot|
    requires forall k :: 0 <= k < |fetched| ==> fetched[k].release.Ok? && fetched[k].commit.Ok?
    requires Distinct(snapshot)
    ensures Distinct(AllRows(snapshot, fetched, now))
  {
    var rows := AllRows(snapshot, fetched, now);
    forall i, j | 0 <= i < j < |rows| ensures !Names(rows[i], rows[j].owner, rows[j].repo) {
      assert !Names(snapshot[i], snapshot[j].owner, snapshot[j].repo);
    }
  }

  /**
   * With every classifier answering and a usable spool file, the check loop
   * runs to the end of the table.
   */
  lemma {:induction false} CheckCompletes(c: Channel, st: CheckState, snapshot: seq<Row>, fetched: seq<Fetched>, now: string)
    requires |fetched| == |snapshot| && st.failure.None?
    requires forall k :: 0 <= k < |fetched| ==> fetched[k].release.Ok? && fetched[k].commit.Ok?
    requires SpoolUsable(c.version, st.out.spool)
    ensures CheckAll(c, st, snapshot, fetched, now).failure.None?
    ensures SpoolUsable(c.version, CheckAll(c, st, snapshot, fetched, now).out.spool)
    decreases |snapshot|
  {
    if snapshot != [] {
      var row := snapshot[0];
      var release := fetched[0].release.value;
      var commit := fetched[0].commit.value;
      assert fetched[0] == Fetched(Ok(release), Ok(commit));
      AnnounceAllUsable(c, st, row, release, commit, Transition(row, release, commit, now).messages, now);
      var next := CheckRow(c, st, row, fetched[0], now);
      assert next.failure.None? && SpoolUsable(c.version, next.out.spool);
      forall k | 0 <= k < |fetched[1..]| ensures fetched[1..][k].release.Ok? && fetched[1..][k].commit.Ok? {
        assert fetched[1..][k] == fetched[k + 1];
      }
      CheckCompletes(c, next, snapshot[1..], fetched[1..], now);
    }
  }

  /**
   * From an empty table: loading one watch-list entry and checking it while
   * its provider reports a release and a commit stores both references and
   * announces exactly two texts.
   */
  lemma LoadThenCheck(c: Channel, out: Outbox, e: Entry, loaded: string, release: string, commit: string, now: string)
    requires SpoolUsable(c.version, out.spool)
    ensures LoadAll([], [e], loaded) == [NewRow(e, loaded)]
    ensures var fetched := [Fetched(Ok(Some(release)), Ok(Some(commit)))];
      var end := CheckAll(c, CheckState([NewRow(e, loaded)], out, [], None), [NewRow(e, loaded)], fetched, now);
      end.failure.None? &&
      end.rows == [Row(e.owner, e.repo, Some(release), Some(commit), now, e.host)] &&
      end.announced == [ReleaseMessage(e.repo, release), CommitMessage(e.repo, commit)]
  {
    assert !Tracked([], e.owner, e.repo);
    assert LoadAll([], [e], loaded) == LoadAll([NewRow(e, loaded)], [], loaded);
    var fetched := [Fetched(Ok(Some(release)), Ok(Some(commit)))];
    var snapshot := [NewRow(e, loaded)];
    var st := CheckState(snapshot, out, [], None);
    CheckCompletes(c, st, snapshot, fetched, now);
    assert Distinct([] + snapshot);
    assert st.rows == [] + snapshot;
    CheckAllIsPointwise(c, st, [], snapshot, fetched, now);
    FirstCheckAnnouncesBoth(e, loaded, release, commit, now);
    assert AllMessages(snapshot[1..], fetched[1..], now) == [];
    assert AllRows(snapshot, fetched, now) == [Transition(snapshot[0], Some(release), Some(commit), now).row];
  }
}
