/**
 * A code-scanning alert as decoded from the JSON body. Only the keys the
 * report reads are kept; a key the object lacks is None.
 */
module Alerts {
  import opened Wrappers

  /** A JSON scalar; `Null` is JSON null (Python None). */
  datatype Value = Null | Num(n: int) | Str(s: string)

  datatype RuleObject = RuleObject(id: Option<Value>, securitySeverityLevel: Option<Value>)

  datatype ToolObject = ToolObject(name: Option<Value>)

  datatype LocationObject = LocationObject(path: Option<Value>)

  datatype InstanceObject = InstanceObject(location: Option<LocationObject>)

  datatype Alert = Alert(
    number: Option<Value>,
    createdAt: Option<Value>,
    state: Option<Value>,
    htmlUrl: Option<Value>,
    rule: Option<RuleObject>,
    tool: Option<ToolObject>,
    mostRecentInstance: Option<InstanceObject>)

  /** The keys the normaliser subscripts, one per lookup that can raise KeyError. */
  datatype Key =
    | Number | CreatedAt | State | HtmlUrl
    | Rule | RuleId
    | Tool | ToolName
    | MostRecentInstance | Location | Path
}
