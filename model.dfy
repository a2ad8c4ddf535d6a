/**
 * The persisted records of the workflow engine, one datatype per table.
 * Every record carries its UUID (`recordId`) and a soft-delete timestamp
 * (`deleted`, 0 while the row is live). The autoincrement `id` column is
 * represented by a row's position in its table.
 */
module Model {

  /** A versioned process definition. status: 1 enabled, 2 disabled; flag: 1 main flow, 2 sub-flow. */
  datatype Flow = Flow(
    recordId: string,
    code: string,
    name: string,
    version: int,
    typeCode: string,
    xml: string,
    flag: int,
    status: int,
    created: int,
    deleted: int)

  /** A step of a flow graph. */
  datatype Node = Node(
    recordId: string,
    flowId: string,
    code: string,
    name: string,
    typeCode: string,
    orderNum: string,
    formId: string,
    created: int,
    deleted: int)

  /** A transition between two nodes, with an optional guard expression. */
  datatype NodeRouter = NodeRouter(
    recordId: string,
    sourceNodeId: string,
    targetNodeId: string,
    expression: string,
    explain: string,
    created: int,
    deleted: int)

  /** An expression that yields candidate handlers of a node. */
  datatype NodeAssignment = NodeAssignment(
    recordId: string,
    nodeId: string,
    expression: string,
    created: int,
    deleted: int)

  /** A name/value configuration entry of a node. */
  datatype NodeProperty = NodeProperty(
    recordId: string,
    nodeId: string,
    name: string,
    value: string,
    created: int,
    deleted: int)

  /** A form bound to nodes. typeCode: "URL" (a link) or "META" (field metadata). */
  datatype Form = Form(
    recordId: string,
    flowId: string,
    code: string,
    name: string,
    typeCode: string,
    data: string,
    created: int,
    deleted: int)

  datatype FormField = FormField(
    recordId: string,
    formId: string,
    code: string,
    labelText: string,
    typeCode: string,
    defaultValue: string,
    created: int,
    deleted: int)

  datatype FieldOption = FieldOption(
    recordId: string,
    fieldId: string,
    valueId: string,
    valueName: string,
    created: int,
    deleted: int)

  datatype FieldProperty = FieldProperty(
    recordId: string,
    fieldId: string,
    code: string,
    value: string,
    created: int,
    deleted: int)

  datatype FieldValidation = FieldValidation(
    recordId: string,
    fieldId: string,
    constraintName: string,
    constraintConfig: string,
    created: int,
    deleted: int)

  /** One execution of a flow. status: 0 not started, 1 in progress, 2 paused, 3 stopped, 9 completed. */
  datatype FlowInstance = FlowInstance(
    recordId: string,
    flowId: string,
    status: int,
    launcher: string,
    launchTime: int,
    created: int,
    deleted: int)

  /** One visit of a node within a flow instance. status: 1 pending, 2 done. */
  datatype NodeInstance = NodeInstance(
    recordId: string,
    flowInstanceId: string,
    nodeId: string,
    processor: string,
    processTime: int,
    inputData: string,
    outData: string,
    status: int,
    created: int,
    updated: int,
    deleted: int)

  /** One eligible handler of a node instance. */
  datatype NodeCandidate = NodeCandidate(
    recordId: string,
    nodeInstanceId: string,
    candidateId: string,
    created: int,
    deleted: int)

  /** A deferred escalation of a node instance; `id` is the autoincrement column (0: assigned on insert). */
  datatype NodeTiming = NodeTiming(
    id: int,
    nodeInstanceId: string,
    flag: string,
    processor: string,
    input: string,
    expiredAt: int,
    created: int,
    deleted: int)

  /** The status codes the engine writes. */
  const FlowEnabled := 1
  const FlowDisabled := 2
  const InstanceRunning := 1
  const InstanceCompleted := 9
  const NodePending := 1
  const NodeDone := 2

  /** A row of any table, the element type of the record groups inserted by one statement. */
  datatype Row =
    | NodeRow(node: Node)
    | RouterRow(router: NodeRouter)
    | AssignmentRow(assignment: NodeAssignment)
    | PropertyRow(property: NodeProperty)
    | FormRow(form: Form)
    | FieldRow(field: FormField)
    | OptionRow(option: FieldOption)
    | FieldPropertyRow(fieldProperty: FieldProperty)
    | ValidationRow(validation: FieldValidation)
}
