/**
 * The node types a flow graph may contain and their type codes (the names
 * stored in a node's TypeCode and used as BPMN element tags).
 */
module NodeTypes {
  import opened Wrappers

  datatype NodeType =
    | StartEvent
    | EndEvent
    | TerminateEvent
    | UserTask
    | ExclusiveGateway
    | ParallelGateway

  /** The type code of a node type (NodeType.String()). */
  function Name(t: NodeType): string {
    match t
    case StartEvent => "startEvent"
    case EndEvent => "endEvent"
    case TerminateEvent => "terminateEvent"
    case UserTask => "userTask"
    case ExclusiveGateway => "exclusiveGateway"
    case ParallelGateway => "parallelGateway"
  }

  /** GetNodeTypeByName: the node type with this code, or none for an unknown code. */
  function ByName(name: string): (r: Option<NodeType>)
    ensures r.Some? ==> Name(r.value) == name
  {
    if name == "startEvent" then Some(StartEvent)
    else if name == "endEvent" then Some(EndEvent)
    else if name == "terminateEvent" then Some(TerminateEvent)
    else if name == "userTask" then Some(UserTask)
    else if name == "exclusiveGateway" then Some(ExclusiveGateway)
    else if name == "parallelGateway" then Some(ParallelGateway)
    else None
  }

  /** Looking up a type by its own code gives the type back: every known code is found. */
  lemma ByNameOfName(t: NodeType)
    ensures ByName(Name(t)) == Some(t)
  {
    match t
    case StartEvent =>
    case EndEvent =>
    case TerminateEvent =>
    case UserTask =>
    case ExclusiveGateway =>
    case ParallelGateway =>
  }
}
