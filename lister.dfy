/** Repository listing with pagination (get_repos). */
module Lister {
  import opened Wrappers
  import opened Http

  /** One element of a listing response; `name` is None when the object has no "name" key. */
  datatype RepoItem = RepoItem(name: Option<string>)

  /** What get_repos raises: a non-200 page, or an element without a "name" key. */
  datatype ListError = Upstream(status: int) | MissingName

  /** The names of one page's elements, in response order; fails on the first nameless one. */
  function PageNames(items: seq<RepoItem>): (r: Result<seq<string>, ListError>)
    ensures r.Success? <==> forall k | 0 <= k < |items| :: items[k].name.Some?
    ensures r.Failure? ==> r.error == MissingName
    ensures r.Success? ==> |r.value| == |items|
    ensures r.Success? ==> forall k | 0 <= k < |items| :: r.value[k] == items[k].name.value
    decreases |items|
  {
    if |items| == 0 then Success([])
    else
      var last := items[|items| - 1];
      match PageNames(items[..|items| - 1])
      case Failure(e) => Failure(e)
      case Success(names) =>
        if last.name.None? then Failure(MissingName) else Success(names + [last.name.value])
  }

  /** A page get_repos accepts: status 200 and a name on every element. */
  predicate PageOk(p: Page<RepoItem>) {
    p.status == OK && PageNames(p.items).Success?
  }

  /** Reading one more page onto the names gathered so far; an earlier failure stands. */
  function ListStep(acc: Result<seq<string>, ListError>, p: Page<RepoItem>): Result<seq<string>, ListError> {
    if acc.Failure? then acc
    else if p.status != OK then Failure(Upstream(p.status))
    else match PageNames(p.items)
      case Failure(e) => Failure(e)
      case Success(names) => Success(acc.value + names)
  }

  /** What get_repos returns (or raises) when the listing answers with `pages`. */
  function ListPages(pages: seq<Page<RepoItem>>): Result<seq<string>, ListError>
    decreases |pages|
  {
    if |pages| == 0 then Success([])
    else ListStep(ListPages(pages[..|pages| - 1]), pages[|pages| - 1])
  }

  /** Once a prefix of the pages has failed, no later page changes the outcome. */
  lemma {:induction false} ListFailureSticks(pages: seq<Page<RepoItem>>, n: nat)
    requires n <= |pages|
    requires ListPages(pages[..n]).Failure?
    ensures ListPages(pages) == ListPages(pages[..n])
    decreases |pages| - n
  {
    if n < |pages| {
      var m := |pages| - 1;
      assert pages[..m][..n] == pages[..n];
      ListFailureSticks(pages[..m], n);
    } else {
      assert pages[..n] == pages;
    }
  }

  /** Listing is concatenation: the names of `a + b` are those of `a` then those of `b`. */
  lemma {:induction false} ListPagesAppend(a: seq<Page<RepoItem>>, b: seq<Page<RepoItem>>)
    ensures ListPages(a + b).Success? <==> ListPages(a).Success? && ListPages(b).Success?
    ensures ListPages(a + b).Success? ==> ListPages(a + b).value == ListPages(a).value + ListPages(b).value
    decreases |b|
  {
    if |b| == 0 {
      assert a + b == a;
    } else {
      var m := |b| - 1;
      ListPagesAppend(a, b[..m]);
      assert (a + b)[..|a + b| - 1] == a + b[..m];
      if ListPages(a + b[..m]).Success? {
        assert ListPages(a + b[..m]).value == ListPages(a).value + ListPages(b[..m]).value;
      }
    }
  }

  /** The listing succeeds exactly when every page has status 200 and names on all elements. */
  lemma {:induction false} ListSucceedsIffAllPagesOk(pages: seq<Page<RepoItem>>)
    ensures ListPages(pages).Success? <==> forall i | 0 <= i < |pages| :: PageOk(pages[i])
    decreases |pages|
  {
    if |pages| > 0 {
      var m := |pages| - 1;
      ListSucceedsIffAllPagesOk(pages[..m]);
      assert forall i | 0 <= i < m :: pages[..m][i] == pages[i];
    }
  }

  /**
   * A non-200 page anywhere in the chain, first or later, makes get_repos raise
   * with that status when every page before it was accepted.
   */
  lemma {:induction false} BadStatusRaises(pages: seq<Page<RepoItem>>, j: nat)
    requires j < |pages|
    requires forall i | 0 <= i < j :: PageOk(pages[i])
    requires pages[j].status != OK
    ensures ListPages(pages) == Failure(Upstream(pages[j].status))
  {
    ListSucceedsIffAllPagesOk(pages[..j]);
    assert forall i | 0 <= i < j :: pages[..j][i] == pages[i];
    assert pages[..j + 1][..j] == pages[..j];
    ListFailureSticks(pages, j + 1);
  }

  /** Appends the names of one page to `repos` (the inner `for repo in response.json()` loop). */
  method ReadPage(repos: seq<string>, page: Page<RepoItem>) returns (r: Result<seq<string>, ListError>)
    ensures r == ListStep(Success(repos), page)
  {
    if page.status != OK {
      return Failure(Upstream(page.status));
    }
    var acc := repos;
    for k := 0 to |page.items|
      invariant PageNames(page.items[..k]).Success?
      invariant acc == repos + PageNames(page.items[..k]).value
    {
      assert page.items[..k + 1][..k] == page.items[..k];
      if page.items[k].name.None? {
        ListFailureOfItems(page.items, k + 1);
        return Failure(MissingName);
      }
      acc := acc + [page.items[k].name.value];
    }
    assert page.items[..|page.items|] == page.items;
    r := Success(acc);
  }

  /** A nameless element in a prefix makes the whole page fail. */
  lemma {:induction false} ListFailureOfItems(items: seq<RepoItem>, n: nat)
    requires 0 < n <= |items|
    requires items[n - 1].name.None?
    ensures PageNames(items).Failure?
  {
    assert items[..n][n - 1] == items[n - 1];
  }

  /**
   * get_repos: reads the first page, then follows "next" links. Any non-200
   * page or nameless element raises, and no names are returned; `fetched`
   * counts the GET requests, which stop at the failing page.
   */
  method GetRepos(url: string, server: Server<RepoItem>) returns (result: Result<seq<string>, ListError>, fetched: nat)
    requires IsChain(server(url))
    ensures result == ListPages(server(url))
    ensures 1 <= fetched <= |server(url)|
    ensures result.Success? ==> fetched == |server(url)|
    ensures result.Failure? ==> ListPages(server(url)[..fetched - 1]).Success?
    ensures result.Failure? ==> ListPages(server(url)[..fetched]) == result
  {
    var pages := server(url);
    var repos: seq<string> := [];
    var response := pages[0];
    fetched := 1;
    result := ReadPage(repos, response);
    assert pages[..1][..0] == [];
    if result.Failure? {
      ListFailureSticks(pages, 1);
      return;
    }
    repos := result.value;
    while response.hasNext
      invariant 1 <= fetched <= |pages|
      invariant response == pages[fetched - 1]
      invariant ListPages(pages[..fetched]) == Success(repos)
      decreases |pages| - fetched
    {
      response := pages[fetched];
      assert pages[..fetched + 1][..fetched] == pages[..fetched];
      fetched := fetched + 1;
      result := ReadPage(repos, response);
      if result.Failure? {
        ListFailureSticks(pages, fetched);
        return;
      }
      repos := result.value;
    }
    assert pages[..fetched] == pages;
    result := Success(repos);
  }
}
