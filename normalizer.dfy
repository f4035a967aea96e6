/** Alert normalisation (clean_alert): one raw alert to one nine-column report row. */
module Normalizer {
  import opened Wrappers
  import opened Alerts

  /** A report row: one JSON scalar per column. */
  type Row = seq<Value>

  /** The column labels of the report, in order. */
  const HEADER: seq<string> :=
    ["repo", "number", "created at", "state", "url", "rule id", "severity level", "tool name", "path"]

  /** What the severity column holds when the rule has no severity key. */
  const NOT_APPLICABLE: string := "n/a"

  /** Whether the alert has `key`, and every object on the path to it. */
  predicate Present(a: Alert, key: Key) {
    match key
    case Number => a.number.Some?
    case CreatedAt => a.createdAt.Some?
    case State => a.state.Some?
    case HtmlUrl => a.htmlUrl.Some?
    case Rule => a.rule.Some?
    case RuleId => a.rule.Some? && a.rule.value.id.Some?
    case Tool => a.tool.Some?
    case ToolName => a.tool.Some? && a.tool.value.name.Some?
    case MostRecentInstance => a.mostRecentInstance.Some?
    case Location => a.mostRecentInstance.Some? && a.mostRecentInstance.value.location.Some?
    case Path =>
      && a.mostRecentInstance.Some? && a.mostRecentInstance.value.location.Some?
      && a.mostRecentInstance.value.location.value.path.Some?
  }

  /** The order in which clean_alert subscripts the keys. */
  function Rank(key: Key): nat {
    match key
    case Number => 0
    case CreatedAt => 1
    case State => 2
    case HtmlUrl => 3
    case Rule => 4
    case RuleId => 5
    case Tool => 6
    case ToolName => 7
    case MostRecentInstance => 8
    case Location => 9
    case Path => 10
  }

  /** An alert that clean_alert reads without raising. */
  predicate Complete(a: Alert) {
    forall key: Key :: Present(a, key)
  }

  /**
   * The value the report shows under a header column, read off the alert by the
   * key the column names; None for an unknown column or a missing key.
   */
  function Lookup(repo: string, a: Alert, column: string): Option<Value> {
    if column == "repo" then Some(Str(repo))
    else if column == "number" then a.number
    else if column == "created at" then a.createdAt
    else if column == "state" then a.state
    else if column == "url" then a.htmlUrl
    else if column == "rule id" then
      if a.rule.Some? then a.rule.value.id else None
    else if column == "severity level" then
      if a.rule.None? then None
      else if a.rule.value.securitySeverityLevel.Some? then a.rule.value.securitySeverityLevel
      else Some(Str(NOT_APPLICABLE))
    else if column == "tool name" then
      if a.tool.Some? then a.tool.value.name else None
    else if column == "path" then
      if a.mostRecentInstance.Some? && a.mostRecentInstance.value.location.Some?
      then a.mostRecentInstance.value.location.value.path else None
    else None
  }

  /**
   * clean_alert: projects the alert to a row under HEADER. It raises on the
   * first missing key in lookup order.
   */
  function CleanAlert(repo: string, a: Alert): (r: Result<Row, Key>)
    ensures r.Failure? ==> !Present(a, r.error)
    ensures r.Success? <==> Complete(a)
    ensures r.Failure? ==> forall key: Key | Rank(key) < Rank(r.error) :: Present(a, key)
    ensures r.Success? ==> |r.value| == |HEADER|
  {
    if a.number.None? then Failure(Number)
    else if a.createdAt.None? then Failure(CreatedAt)
    else if a.state.None? then Failure(State)
    else if a.htmlUrl.None? then Failure(HtmlUrl)
    else if a.rule.None? then Failure(Rule)
    else if a.rule.value.id.None? then Failure(RuleId)
    else if a.tool.None? then Failure(Tool)
    else if a.tool.value.name.None? then Failure(ToolName)
    else if a.mostRecentInstance.None? then Failure(MostRecentInstance)
    else if a.mostRecentInstance.value.location.None? then Failure(Location)
    else if a.mostRecentInstance.value.location.value.path.None? then Failure(Path)
    else
      var severity :=
        match a.rule.value.securitySeverityLevel
        case Some(v) => v
        case None => Str(NOT_APPLICABLE);
      Success([
        Str(repo),
        a.number.value,
        a.createdAt.value,
        a.state.value,
        a.htmlUrl.value,
        a.rule.value.id.value,
        severity,
        a.tool.value.name.value,
        a.mostRecentInstance.value.location.value.path.value])
  }

  /**
   * Each cell of a clean row holds the alert's value under the header label of
   * its column. The severity key alone is optional: absent, the column reads
   * "n/a"; present, its value is copied as it is, null included.
   */
  lemma {:induction false} CleanAlertColumns(repo: string, a: Alert)
    requires Complete(a)
    ensures forall k | 0 <= k < |HEADER| :: Lookup(repo, a, HEADER[k]) == Some(CleanAlert(repo, a).value[k])
    ensures a.rule.Some? && a.rule.value.securitySeverityLevel.None? ==> CleanAlert(repo, a).value[6] == Str(NOT_APPLICABLE)
    ensures a.rule.Some? && a.rule.value.securitySeverityLevel.Some? ==>
              CleanAlert(repo, a).value[6] == a.rule.value.securitySeverityLevel.value
  {
    assert Present(a, Rule) && Present(a, Tool) && Present(a, Path);
  }
}
