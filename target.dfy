/** Target resolution and URL construction (build_repo_url, build_alerts_url). */
module Target {
  import opened Wrappers

  const ENDPOINT: string := "https://api.github.com/"

  /** The pair the resolver returns: the repository-listing URL and the account slug. */
  datatype Listing = Listing(url: string, slug: string)

  /** Raised when neither an organisation nor a user is configured. */
  datatype ConfigError = NoTarget

  function OrgListingUrl(org: string): string {
    ENDPOINT + "orgs/" + org + "/repos?type=public"
  }

  function UserListingUrl(user: string): string {
    ENDPOINT + "users/" + user + "/repos"
  }

  /**
   * Resolves the scan target. The organisation, when set, wins over the user;
   * with neither set the resolver fails before any request is made.
   */
  function BuildRepoUrl(org: Option<string>, user: Option<string>): (r: Result<Listing, ConfigError>)
    ensures r.Failure? <==> org.None? && user.None?
    ensures r.Success? ==> r.value.slug == (if org.Some? then org.value else user.value)
    ensures r.Success? && org.Some? ==> r.value.url == OrgListingUrl(r.value.slug)
    ensures r.Success? && org.None? ==> r.value.url == UserListingUrl(r.value.slug)
  {
    if org.Some? then Success(Listing(OrgListingUrl(org.value), org.value))
    else if user.Some? then Success(Listing(UserListingUrl(user.value), user.value))
    else Failure(NoTarget)
  }

  /** With an organisation set, the user setting makes no difference at all. */
  lemma {:induction false} OrgTakesPrecedence(org: string, user1: Option<string>, user2: Option<string>)
    ensures BuildRepoUrl(Some(org), user1) == BuildRepoUrl(Some(org), user2)
    ensures BuildRepoUrl(Some(org), user1) == Success(Listing(OrgListingUrl(org), org))
  {
  }

  /** Framing fact: x sits at offset |p| in p + x + s. */
  lemma {:induction false} Infix(p: string, x: string, s: string)
    ensures |p + x + s| == |p| + |x| + |s|
    ensures (p + x + s)[|p|..|p| + |x|] == x
    ensures (p + x + s)[..|p|] == p
  {
    assert (p + x + s)[|p|..|p| + |x|] == x;
    assert (p + x + s)[..|p|] == p;
  }

  /**
   * The listing URL identifies the target: two configurations that produce the
   * same URL name the same kind of account and the same slug.
   */
  lemma {:induction false} ListingUrlDeterminesTarget(org1: Option<string>, user1: Option<string>,
                                                      org2: Option<string>, user2: Option<string>)
    requires BuildRepoUrl(org1, user1).Success? && BuildRepoUrl(org2, user2).Success?
    requires BuildRepoUrl(org1, user1).value.url == BuildRepoUrl(org2, user2).value.url
    ensures BuildRepoUrl(org1, user1) == BuildRepoUrl(org2, user2)
    ensures org1.Some? <==> org2.Some?
  {
    var l1, l2 := BuildRepoUrl(org1, user1).value, BuildRepoUrl(org2, user2).value;
    if org1.Some? && org2.Some? {
      Infix(ENDPOINT + "orgs/", l1.slug, "/repos?type=public");
      Infix(ENDPOINT + "orgs/", l2.slug, "/repos?type=public");
      assert |l1.slug| == |l2.slug|;
    } else if org1.None? && org2.None? {
      Infix(ENDPOINT + "users/", l1.slug, "/repos");
      Infix(ENDPOINT + "users/", l2.slug, "/repos");
      assert |l1.slug| == |l2.slug|;
    } else if org1.Some? {
      OrgAndUserUrlsDiffer(l1.slug, l2.slug);
    } else {
      OrgAndUserUrlsDiffer(l2.slug, l1.slug);
    }
  }

  /** Organisation and user listings live in disjoint URL namespaces. */
  lemma {:induction false} OrgAndUserUrlsDiffer(org: string, user: string)
    ensures OrgListingUrl(org) != UserListingUrl(user)
  {
    var n := |ENDPOINT|;
    assert OrgListingUrl(org)[n] == 'o';
    assert UserListingUrl(user)[n] == 'u';
  }

  /**
   * The alerts URL of one repository. It splits back into a fixed prefix that
   * names the account, the repository name, and a fixed suffix.
   */
  function BuildAlertsUrl(slug: string, repo: string): (url: string)
    ensures |url| == |ENDPOINT + "repos/" + slug + "/"| + |repo| + |"/code-scanning/alerts"|
    ensures url[..|ENDPOINT + "repos/" + slug + "/"|] == ENDPOINT + "repos/" + slug + "/"
    ensures url[|ENDPOINT + "repos/" + slug + "/"|..|url| - |"/code-scanning/alerts"|] == repo
    ensures url[|url| - |"/code-scanning/alerts"|..] == "/code-scanning/alerts"
  {
    var prefix, suffix := ENDPOINT + "repos/" + slug + "/", "/code-scanning/alerts";
    Infix(prefix, repo, suffix);
    assert (prefix + repo + suffix)[|prefix| + |repo|..] == suffix;
    prefix + repo + suffix
  }

  /** Within one account, distinct repositories are queried at distinct URLs. */
  lemma {:induction false} AlertsUrlDistinguishesRepos(slug: string, repo1: string, repo2: string)
    requires BuildAlertsUrl(slug, repo1) == BuildAlertsUrl(slug, repo2)
    ensures repo1 == repo2
  {
  }
}
