/**
 * The data an expression is evaluated against, and the expression
 * evaluator the router calls (exec.go's Execer). The evaluator runs a
 * script language outside this model, so it is a pair of functions given
 * by the caller; the JSON encoding of the data context is not modelled.
 */
module Expression {
  import opened Wrappers
  import opened Model

  /** A value of the data context: the caller's input document, a flow instance or a node instance. */
  datatype Value = InputValue(raw: string) | FlowValue(flow: FlowInstance) | NodeValue(node: NodeInstance)

  type ExpData = map<string, Value>

  /** The evaluator: a guard yields a boolean, an assignment expression a list of candidate ids. */
  datatype Execer = Execer(
    returnBool: (string, ExpData) -> Result<bool>,
    returnStrings: (string, ExpData) -> Result<seq<string>>)

  /**
   * getExpData: the context has exactly the keys `input`, `flow` and
   * `node`, holding the router's input data and its flow and node instance.
   */
  function GetExpData(input: string, flowInstance: FlowInstance, nodeInstance: NodeInstance): (d: ExpData)
    ensures d.Keys == {"input", "flow", "node"}
    ensures d["input"] == InputValue(input)
    ensures d["flow"] == FlowValue(flowInstance) && d["node"] == NodeValue(nodeInstance)
  {
    map["input" := InputValue(input), "flow" := FlowValue(flowInstance), "node" := NodeValue(nodeInstance)]
  }
}
