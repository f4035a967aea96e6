/**
 * The whole run (main): resolve the target, list the repositories, collect
 * the alerts, write the report. Configuration and listing failures abort the
 * run before the report file is opened.
 */
module Pipeline {
  import opened Wrappers
  import opened Http
  import opened Target
  import opened Lister
  import opened Alerts
  import opened Normalizer
  import opened Fetcher
  import opened Report

  /** The exceptions that end a run before the report is written. */
  datatype RunError = Config(config: ConfigError) | ListingFailed(listing: ListError)

  /**
   * A run that reached the report: the rows the file received, the missing
   * key that interrupted the row loop (if any), and the printed warnings.
   */
  datatype Outcome = Outcome(rows: seq<Row>, failure: Option<Key>, warnings: seq<Warning>)

  /** What a run produces, given the configuration and what the servers answer. */
  function RunSpec(org: Option<string>, user: Option<string>,
                   listServer: Server<RepoItem>, alertServer: Server<Alert>): Result<Outcome, RunError>
  {
    match BuildRepoUrl(org, user)
    case Failure(e) => Failure(Config(e))
    case Success(target) =>
      match ListPages(listServer(target.url))
      case Failure(e) => Failure(ListingFailed(e))
      case Success(repos) =>
        var h := ScanRepos(target.slug, repos, alertServer);
        var em := Emit(Flatten(h.entries));
        Success(Outcome([HEADER_ROW] + em.rows, em.failure, h.warnings))
  }

  /**
   * main. `requests` counts the GET requests issued: none at all when no
   * target is configured; on success, every listing page plus every alert
   * page of every repository.
   */
  method Run(org: Option<string>, user: Option<string>,
             listServer: Server<RepoItem>, alertServer: Server<Alert>)
    returns (result: Result<Outcome, RunError>, requests: nat)
    requires forall url :: IsChain(listServer(url))
    requires forall url :: IsChain(alertServer(url))
    ensures result == RunSpec(org, user, listServer, alertServer)
    ensures result == Failure(Config(NoTarget)) <==> org.None? && user.None?
    ensures org.None? && user.None? ==> requests == 0
    ensures result.Failure? && result.error.ListingFailed? ==>
              1 <= requests <= |listServer(BuildRepoUrl(org, user).value.url)|
    ensures result.Success? ==>
              var target := BuildRepoUrl(org, user).value;
              requests == |listServer(target.url)|
                          + ScanRepos(target.slug, ListPages(listServer(target.url)).value, alertServer).fetched
  {
    var target := BuildRepoUrl(org, user);
    if target.Failure? {
      return Failure(Config(target.error)), 0;
    }
    var repos, listed := GetRepos(target.value.url, listServer);
    requests := listed;
    if repos.Failure? {
      return Failure(ListingFailed(repos.error)), requests;
    }
    var entries, warnings, fetched := GetAlerts(target.value.slug, repos.value, alertServer);
    requests := requests + fetched;
    var rows, failure := WriteReport(entries);
    result := Success(Outcome(rows, failure, warnings));
  }

  /**
   * End to end, with every alert complete: the report is the header followed by
   * one row per alert collected, and no key is missing.
   */
  lemma {:induction false} CompleteRun(org: Option<string>, user: Option<string>,
                    listServer: Server<RepoItem>, alertServer: Server<Alert>)
    requires RunSpec(org, user, listServer, alertServer).Success?
    requires var target := BuildRepoUrl(org, user).value;
             AllComplete(ScanRepos(target.slug, ListPages(listServer(target.url)).value, alertServer).entries)
    ensures var out := RunSpec(org, user, listServer, alertServer).value;
            var target := BuildRepoUrl(org, user).value;
            && out.failure.None?
            && out.rows[0] == HEADER_ROW
            && |out.rows| == 1 + TotalAlerts(ScanRepos(target.slug, ListPages(listServer(target.url)).value, alertServer).entries)
  {
    var target := BuildRepoUrl(org, user).value;
    CompleteReport(ScanRepos(target.slug, ListPages(listServer(target.url)).value, alertServer).entries);
  }
}
