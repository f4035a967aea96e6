/**
 * Alert collection (get_alerts). For each repository the fetcher follows every
 * "next" link whatever the status of the page that carried it; each status-200
 * page becomes its own entry, 404 pages are skipped silently, and any other
 * status is logged as a warning.
 */
module Fetcher {
  import opened Http
  import opened Target
  import opened Alerts

  /** One `{'repo': ..., 'alerts': ...}` element of the result: one 200 page of one repository. */
  datatype Entry = Entry(repo: string, alerts: seq<Alert>)

  /** One printed warning: the status and the repository's alerts URL. */
  datatype Warning = Warning(status: int, url: string)

  /** Everything the fetcher has produced so far, with the number of GET requests made. */
  datatype Harvest = Harvest(entries: seq<Entry>, warnings: seq<Warning>, fetched: nat)

  const EMPTY: Harvest := Harvest([], [], 0)

  /** The effect of one response for `repo`. */
  function ScanPage(h: Harvest, slug: string, repo: string, p: Page<Alert>): Harvest {
    Harvest(
      h.entries + (if p.status == OK then [Entry(repo, p.items)] else []),
      h.warnings + (if p.status != OK && p.status != NOT_FOUND
                    then [Warning(p.status, BuildAlertsUrl(slug, repo))] else []),
      h.fetched + 1)
  }

  /** The effect of the responses `pages` for `repo`, in order. */
  function ScanPages(h: Harvest, slug: string, repo: string, pages: seq<Page<Alert>>): Harvest
    decreases |pages|
  {
    if |pages| == 0 then h
    else ScanPage(ScanPages(h, slug, repo, pages[..|pages| - 1]), slug, repo, pages[|pages| - 1])
  }

  /** The chain of pages answered for the first alerts request of `repo`. */
  function AlertPages(slug: string, repo: string, server: Server<Alert>): seq<Page<Alert>> {
    server(BuildAlertsUrl(slug, repo))
  }

  /** What get_alerts produces for `repos`, scanning them in order. */
  function ScanRepos(slug: string, repos: seq<string>, server: Server<Alert>): Harvest
    decreases |repos|
  {
    if |repos| == 0 then EMPTY
    else
      var repo := repos[|repos| - 1];
      ScanPages(ScanRepos(slug, repos[..|repos| - 1], server), slug, repo, AlertPages(slug, repo, server))
  }

  /** Number of pages in `pages` with the given status. */
  function CountStatus(pages: seq<Page<Alert>>, status: int): nat
    decreases |pages|
  {
    if |pages| == 0 then 0
    else CountStatus(pages[..|pages| - 1], status) + (if pages[|pages| - 1].status == status then 1 else 0)
  }

  /** Number of pages in `pages` whose status is neither 200 nor 404. */
  function CountErrors(pages: seq<Page<Alert>>): nat
    decreases |pages|
  {
    if |pages| == 0 then 0
    else CountErrors(pages[..|pages| - 1])
         + (if pages[|pages| - 1].status != OK && pages[|pages| - 1].status != NOT_FOUND then 1 else 0)
  }

  /** Total number of alerts held by `entries`. */
  function TotalAlerts(entries: seq<Entry>): nat
    decreases |entries|
  {
    if |entries| == 0 then 0 else TotalAlerts(entries[..|entries| - 1]) + |entries[|entries| - 1].alerts|
  }

  /** Total number of alerts on the status-200 pages of `pages`. */
  function OkAlerts(pages: seq<Page<Alert>>): nat
    decreases |pages|
  {
    if |pages| == 0 then 0
    else OkAlerts(pages[..|pages| - 1]) + (if pages[|pages| - 1].status == OK then |pages[|pages| - 1].items| else 0)
  }

  /**
   * Scanning one repository's pages: every page is requested; the entries and
   * warnings before it are kept as they were; each 200 page adds exactly one
   * entry (pages are not merged), and each page that is neither 200 nor 404
   * adds one warning carrying the repository's alerts URL.
   */
  lemma {:induction false} ScanPagesCounts(h: Harvest, slug: string, repo: string, pages: seq<Page<Alert>>)
    ensures ScanPages(h, slug, repo, pages).fetched == h.fetched + |pages|
    ensures |ScanPages(h, slug, repo, pages).entries| == |h.entries| + CountStatus(pages, OK)
    ensures |ScanPages(h, slug, repo, pages).warnings| == |h.warnings| + CountErrors(pages)
    ensures ScanPages(h, slug, repo, pages).entries[..|h.entries|] == h.entries
    ensures ScanPages(h, slug, repo, pages).warnings[..|h.warnings|] == h.warnings
    ensures forall k | |h.warnings| <= k < |ScanPages(h, slug, repo, pages).warnings| ::
              ScanPages(h, slug, repo, pages).warnings[k].url == BuildAlertsUrl(slug, repo)
    ensures forall k | |h.entries| <= k < |ScanPages(h, slug, repo, pages).entries| ::
              ScanPages(h, slug, repo, pages).entries[k].repo == repo
    decreases |pages|
  {
    if |pages| > 0 {
      ScanPagesCounts(h, slug, repo, pages[..|pages| - 1]);
    }
  }

  /**
   * Pagination does not stop at a 404 or error page: a status-200 page
   * anywhere in the chain is collected, as an entry of its own, whatever the
   * statuses of the pages around it. Its entry comes right after the entries
   * of the 200 pages before it, so entries follow page order.
   */
  lemma {:induction false} OkPageCollected(h: Harvest, slug: string, repo: string, pages: seq<Page<Alert>>, i: nat)
    requires i < |pages| && pages[i].status == OK
    ensures |h.entries| + CountStatus(pages[..i], OK) < |ScanPages(h, slug, repo, pages).entries|
    ensures ScanPages(h, slug, repo, pages).entries[|h.entries| + CountStatus(pages[..i], OK)]
              == Entry(repo, pages[i].items)
    ensures Entry(repo, pages[i].items) in ScanPages(h, slug, repo, pages).entries
    decreases |pages|
  {
    var m := |pages| - 1;
    if i < m {
      assert pages[..m][..i] == pages[..i];
      OkPageCollected(h, slug, repo, pages[..m], i);
    } else {
      ScanPagesCounts(h, slug, repo, pages[..m]);
    }
  }

  /** A repository whose pages all answer 404 contributes no entry and no warning. */
  lemma {:induction false} NotFoundContributesNothing(h: Harvest, slug: string, repo: string, pages: seq<Page<Alert>>)
    requires forall i | 0 <= i < |pages| :: pages[i].status == NOT_FOUND
    ensures ScanPages(h, slug, repo, pages) == Harvest(h.entries, h.warnings, h.fetched + |pages|)
    decreases |pages|
  {
    if |pages| > 0 {
      NotFoundContributesNothing(h, slug, repo, pages[..|pages| - 1]);
    }
  }

  /** The alerts gathered for one repository are those of its 200 pages, all of them. */
  lemma {:induction false} ScanPagesAlertCount(h: Harvest, slug: string, repo: string, pages: seq<Page<Alert>>)
    ensures TotalAlerts(ScanPages(h, slug, repo, pages).entries) == TotalAlerts(h.entries) + OkAlerts(pages)
    decreases |pages|
  {
    if |pages| > 0 {
      var m := |pages| - 1;
      var before := ScanPages(h, slug, repo, pages[..m]);
      ScanPagesAlertCount(h, slug, repo, pages[..m]);
      if pages[m].status == OK {
        var after := before.entries + [Entry(repo, pages[m].items)];
        assert after[..|after| - 1] == before.entries;
      } else {
        assert before.entries + [] == before.entries;
      }
    }
  }

  /** Scanning from a non-empty harvest appends to it what scanning from nothing yields. */
  lemma {:induction false} ScanPagesShift(h: Harvest, slug: string, repo: string, pages: seq<Page<Alert>>)
    ensures var s := ScanPages(EMPTY, slug, repo, pages);
            ScanPages(h, slug, repo, pages) == Harvest(h.entries + s.entries, h.warnings + s.warnings, h.fetched + s.fetched)
    decreases |pages|
  {
    if |pages| > 0 {
      ScanPagesShift(h, slug, repo, pages[..|pages| - 1]);
    }
  }

  /**
   * Repositories are visited in input order: the result for `a + b` is the
   * result for `a` followed by the result for `b`.
   */
  lemma {:induction false} ScanReposAppend(slug: string, a: seq<string>, b: seq<string>, server: Server<Alert>)
    ensures var ra, rb := ScanRepos(slug, a, server), ScanRepos(slug, b, server);
            ScanRepos(slug, a + b, server) == Harvest(ra.entries + rb.entries, ra.warnings + rb.warnings, ra.fetched + rb.fetched)
    decreases |b|
  {
    if |b| == 0 {
      assert a + b == a;
    } else {
      var m := |b| - 1;
      var repo := b[m];
      var pages := AlertPages(slug, repo, server);
      assert (a + b)[..|a + b| - 1] == a + b[..m];
      var ra, rb0 := ScanRepos(slug, a, server), ScanRepos(slug, b[..m], server);
      var s := ScanPages(EMPTY, slug, repo, pages);
      ScanReposAppend(slug, a, b[..m], server);
      ScanPagesShift(ScanRepos(slug, a + b[..m], server), slug, repo, pages);
      ScanPagesShift(rb0, slug, repo, pages);
      assert (ra.entries + rb0.entries) + s.entries == ra.entries + (rb0.entries + s.entries);
      assert (ra.warnings + rb0.warnings) + s.warnings == ra.warnings + (rb0.warnings + s.warnings);
    }
  }

  /** get_alerts, with the requests and printed warnings made visible as outputs. */
  method GetAlerts(slug: string, repos: seq<string>, server: Server<Alert>)
    returns (entries: seq<Entry>, warnings: seq<Warning>, fetched: nat)
    requires forall repo | repo in repos :: IsChain(AlertPages(slug, repo, server))
    ensures Harvest(entries, warnings, fetched) == ScanRepos(slug, repos, server)
  {
    entries, warnings, fetched := [], [], 0;
    for k := 0 to |repos|
      invariant Harvest(entries, warnings, fetched) == ScanRepos(slug, repos[..k], server)
    {
      var repo := repos[k];
      assert repos[..k + 1][..k] == repos[..k];
      ghost var start := Harvest(entries, warnings, fetched);
      var pages := server(BuildAlertsUrl(slug, repo));
      assert repo in repos && pages == AlertPages(slug, repo, server);
      var response := pages[0];
      fetched := fetched + 1;
      if response.status == OK {
        entries := entries + [Entry(repo, response.items)];
      } else if response.status == NOT_FOUND {
      } else {
        warnings := warnings + [Warning(response.status, BuildAlertsUrl(slug, repo))];
      }
      var i := 1;
      assert pages[..1][..0] == [];
      while response.hasNext
        invariant 1 <= i <= |pages|
        invariant response == pages[i - 1]
        invariant Harvest(entries, warnings, fetched) == ScanPages(start, slug, repo, pages[..i])
        decreases |pages| - i
      {
        response := pages[i];
        assert pages[..i + 1][..i] == pages[..i];
        i := i + 1;
        fetched := fetched + 1;
        if response.status == OK {
          entries := entries + [Entry(repo, response.items)];
        } else if response.status == NOT_FOUND {
        } else {
          warnings := warnings + [Warning(response.status, BuildAlertsUrl(slug, repo))];
        }
      }
      assert pages[..i] == pages;
    }
    assert repos[..|repos|] == repos;
  }
}
