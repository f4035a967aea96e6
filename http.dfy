/**
 * The HTTP layer as the script sees it. A GET returns a page: a status code,
 * the decoded JSON array of the body, and whether the Link header carries a
 * "next" relation. Following "next" links from a first URL yields a chain of
 * pages; a server maps each first URL to that chain.
 */
module Http {

  datatype Page<T> = Page(status: int, items: seq<T>, hasNext: bool)

  /** The one status the script treats as success. */
  const OK: int := 200

  /** The status the alert fetcher treats as "code scanning not enabled". */
  const NOT_FOUND: int := 404

  /**
   * The responses seen while following "next" links to the end: at least one
   * page, every page but the last links onwards and the last one does not.
   */
  predicate IsChain<T>(pages: seq<Page<T>>) {
    && |pages| > 0
    && !pages[|pages| - 1].hasNext
    && forall i | 0 <= i < |pages| - 1 :: pages[i].hasNext
  }

  /** For each first-request URL, the chain of pages the server answers with. */
  type Server<T> = string -> seq<Page<T>>
}
