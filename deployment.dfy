/**
 * What deploying a parsed process definition writes (engine.go): the
 * record groups parseOperating and parseFormOperating build, the form
 * linking Deploy does after them, and the version check in front of it all.
 * Every record id is drawn from the store's UUID counter in the order the
 * source draws them; `next` is the counter before a step.
 */
module Deployment {
  import opened Wrappers
  import opened Model
  import opened Operating
  import opened NodeTypes
  import Text
  import opened BpmnParse
  import opened Tables
  import Transitions

  /** The JSON encoding of a form's fields (json.Marshal), stored as a META form's data. */
  type Marshal = seq<FormFieldResult> -> string

  function NoNodes(): NodeOperating { NodeOperating([], [], [], []) }
  function NoForms(): FormOperating { FormOperating([], [], [], [], []) }

  // ---------------------------------------------------------------------
  // parseFormOperating
  // ---------------------------------------------------------------------

  function OptionRecords(fieldId: string, items: seq<FieldOptionResult>, first: nat, created: int)
    : seq<FieldOption>
  {
    seq(|items|, j requires 0 <= j < |items| =>
      FieldOption(Text.Uuid(first + j), fieldId, items[j].id, items[j].name, created, 0))
  }

  function FieldPropertyRecords(fieldId: string, items: seq<FieldPropertyResult>, first: nat, created: int)
    : seq<FieldProperty>
  {
    seq(|items|, j requires 0 <= j < |items| =>
      FieldProperty(Text.Uuid(first + j), fieldId, items[j].id, items[j].value, created, 0))
  }

  function ValidationRecords(fieldId: string, items: seq<FieldValidationResult>, first: nat, created: int)
    : seq<FieldValidation>
  {
    seq(|items|, j requires 0 <= j < |items| =>
      FieldValidation(Text.Uuid(first + j), fieldId, items[j].name, items[j].config, created, 0))
  }

  /** The ids one field draws: its own, then one per option, property and validation. */
  function FieldUuids(ff: FormFieldResult): nat {
    1 + |ff.values| + |ff.properties| + |ff.validations|
  }

  /** One META field: its options, properties and validations, then the field record itself. */
  function FieldStep(forms: FormOperating, formId: string, ff: FormFieldResult, next: nat, created: int)
    : FormOperating
  {
    var fieldId := Text.Uuid(next);
    var a := next + 1;
    var b := a + |ff.values|;
    var c := b + |ff.properties|;
    forms.(fieldOptionGroup := forms.fieldOptionGroup + OptionRecords(fieldId, ff.values, a, created),
           fieldPropertyGroup := forms.fieldPropertyGroup + FieldPropertyRecords(fieldId, ff.properties, b, created),
           fieldValidationGroup := forms.fieldValidationGroup + ValidationRecords(fieldId, ff.validations, c, created),
           formFieldGroup := forms.formFieldGroup
                               + [FormField(fieldId, formId, ff.id, ff.labelText, ff.typeName, ff.defaultValue, created, 0)])
  }

  /** The fields from `k` on, and the counter after them. */
  function FieldsFrom(forms: FormOperating, formId: string, fields: seq<FormFieldResult>, k: nat, next: nat,
                      created: int): (FormOperating, nat)
    requires k <= |fields|
    decreases |fields| - k
  {
    if k == |fields| then (forms, next)
    else FieldsFrom(FieldStep(forms, formId, fields[k], next, created), formId, fields, k + 1,
                    next + FieldUuids(fields[k]), created)
  }

  /** A URL form: two fields, `type_code` defaulting to "URL", then `data`. */
  predicate IsUrlForm(fields: seq<FormFieldResult>) {
    |fields| == 2 && fields[0].id == "type_code" && fields[0].defaultValue == "URL" && fields[1].id == "data"
  }

  /** The position of the first form with this code. */
  function FormIndex(s: seq<Form>, code: string): Option<nat> {
    FirstIndex(s, (f: Form) => f.code == code)
  }

  /** The form groups after one node's form, the form id the node gets, and the counter after it. */
  datatype FormPlan = FormPlan(forms: FormOperating, formId: string, next: nat)

  /**
   * parseFormOperating: no form for an empty id; the first form with the
   * same code is reused; otherwise a new URL form, or a new META form
   * with its fields.
   */
  function FormStep(forms: FormOperating, flow: Flow, fr: NodeFormResult, next: nat, marshal: Marshal): FormPlan {
    if fr.id == "" then FormPlan(forms, "", next)
    else
      match FormIndex(forms.formGroup, fr.id)
      case Some(k) => FormPlan(forms, forms.formGroup[k].recordId, next)
      case None =>
        var formId := Text.Uuid(next);
        if IsUrlForm(fr.fields) then
          var form := Form(formId, flow.recordId, fr.id, "", "URL", fr.fields[1].defaultValue, flow.created, 0);
          FormPlan(forms.(formGroup := forms.formGroup + [form]), formId, next + 1)
        else
          var done := FieldsFrom(forms, formId, fr.fields, 0, next + 1, flow.created);
          var form := Form(formId, flow.recordId, fr.id, "", "META", marshal(fr.fields), flow.created, 0);
          FormPlan(done.0.(formGroup := done.0.formGroup + [form]), formId, done.1)
  }

  // ---------------------------------------------------------------------
  // parseOperating
  // ---------------------------------------------------------------------

  /** The record groups built so far and the UUID counter. */
  datatype Acc = Acc(nodes: NodeOperating, forms: FormOperating, next: nat)

  function AssignmentRecords(nodeId: string, exps: seq<string>, first: nat, created: int): seq<NodeAssignment> {
    seq(|exps|, j requires 0 <= j < |exps| => NodeAssignment(Text.Uuid(first + j), nodeId, exps[j], created, 0))
  }

  /** The node record of parsed node `i`, before its form id is known. */
  function NodeRecord(flow: Flow, n: NodeResult, i: nat, recordId: string): Node {
    Node(recordId, flow.recordId, n.nodeId, n.nodeName, Name(n.nodeType), Text.NatToDecimal(i + 10), "",
         flow.created, 0)
  }

  /** The first loop of parseOperating for node `i`: the node, its form, then its assignments. */
  function NodeStep(acc: Acc, flow: Flow, n: NodeResult, i: nat, marshal: Marshal): Acc {
    var nodeId := Text.Uuid(acc.next);
    var p := FormStep(acc.forms, flow, n.formResult, acc.next + 1, marshal);
    var node := NodeRecord(flow, n, i, nodeId).(formId := p.formId);
    var nodes := acc.nodes.(nodeGroup := acc.nodes.nodeGroup + [node],
                            assignmentGroup := acc.nodes.assignmentGroup
                                                 + AssignmentRecords(nodeId, n.candidateExpressions, p.next, flow.created));
    Acc(nodes, p.forms, p.next + |n.candidateExpressions|)
  }

  function FirstPass(acc: Acc, flow: Flow, nrs: seq<NodeResult>, i: nat, marshal: Marshal): Acc
    requires i <= |nrs|
    decreases |nrs| - i
  {
    if i == |nrs| then acc else FirstPass(NodeStep(acc, flow, nrs[i], i, marshal), flow, nrs, i + 1, marshal)
  }

  /** The position of the first node with this code. */
  function NodeIndex(s: seq<Node>, code: string): Option<nat> {
    FirstIndex(s, (n: Node) => n.code == code)
  }

  /** getNodeRecordID: the record id of the first node with this code, or "". */
  function NodeRecordId(nodes: seq<Node>, code: string): (id: string)
    ensures (forall n :: n in nodes ==> n.code != code) ==> id == ""
    ensures (exists n :: n in nodes && n.code == code) ==>
              exists k :: 0 <= k < |nodes| && nodes[k].code == code && nodes[k].recordId == id
                          && forall j :: 0 <= j < k ==> nodes[j].code != code
  {
    match NodeIndex(nodes, code)
    case None => ""
    case Some(k) => nodes[k].recordId
  }

  function RouterRecords(nodes: seq<Node>, sourceId: string, rs: seq<RouterResult>, first: nat, created: int)
    : seq<NodeRouter>
  {
    seq(|rs|, j requires 0 <= j < |rs| =>
      NodeRouter(Text.Uuid(first + j), sourceId, NodeRecordId(nodes, rs[j].targetNodeId), rs[j].expression,
                 rs[j].explain, created, 0))
  }

  function PropertyRecords(nodeId: string, ps: seq<PropertyResult>, first: nat, created: int): seq<NodeProperty> {
    seq(|ps|, j requires 0 <= j < |ps| => NodeProperty(Text.Uuid(first + j), nodeId, ps[j].name, ps[j].value, created, 0))
  }

  /** The second loop of parseOperating for one parsed node: its routers, then its properties. */
  function LinkStep(acc: Acc, flow: Flow, n: NodeResult): Acc {
    var ng := acc.nodes.nodeGroup;
    var source := NodeRecordId(ng, n.nodeId);
    var routers := RouterRecords(ng, source, n.routers, acc.next, flow.created);
    var props := PropertyRecords(source, n.properties, acc.next + |n.routers|, flow.created);
    Acc(acc.nodes.(routerGroup := acc.nodes.routerGroup + routers,
                   propertyGroup := acc.nodes.propertyGroup + props),
        acc.forms, acc.next + |n.routers| + |n.properties|)
  }

  function SecondPass(acc: Acc, flow: Flow, nrs: seq<NodeResult>, i: nat): Acc
    requires i <= |nrs|
    decreases |nrs| - i
  {
    if i == |nrs| then acc else SecondPass(LinkStep(acc, flow, nrs[i]), flow, nrs, i + 1)
  }

  /** parseOperating, with the counter starting at `next`. */
  function ParseOperating(flow: Flow, nrs: seq<NodeResult>, next: nat, marshal: Marshal): Acc {
    SecondPass(FirstPass(Acc(NoNodes(), NoForms(), next), flow, nrs, 0, marshal), flow, nrs, 0)
  }

  // ---------------------------------------------------------------------
  // Deploy
  // ---------------------------------------------------------------------

  /** The first node with this code gets this form id; the others are unchanged. */
  function SetFormId(nodes: seq<Node>, code: string, formId: string): seq<Node> {
    match NodeIndex(nodes, code)
    case None => nodes
    case Some(k) => nodes[k := nodes[k].(formId := formId)]
  }

  /** Deploy's linking of a node with a form id but no fields to the first form with that code. */
  function LinkForm(nodes: seq<Node>, forms: seq<Form>, n: NodeResult): seq<Node> {
    if n.formResult.id != "" && |n.formResult.fields| == 0 then
      match FormIndex(forms, n.formResult.id)
      case None => nodes
      case Some(k) => if forms[k].recordId != "" then SetFormId(nodes, n.nodeId, forms[k].recordId) else nodes
    else nodes
  }

  function LinkFrom(nodes: seq<Node>, forms: seq<Form>, nrs: seq<NodeResult>, i: nat): seq<Node>
    requires i <= |nrs|
    decreases |nrs| - i
  {
    if i == |nrs| then nodes else LinkFrom(LinkForm(nodes, forms, nrs[i]), forms, nrs, i + 1)
  }

  /** The flow record Deploy builds: flag 0 and no type code, left for CreateFlow to default. */
  function NewFlow(recordId: string, r: ParseResult, xml: string, now: int): Flow {
    Flow(recordId, r.flowId, r.flowName, r.flowVersion, "", xml, 0, r.flowStatus, now, 0)
  }

  /** The writing half of Deploy: a new flow, its record groups, the form links, then one CreateFlow. */
  function WriteNewFlow(db: Db, faults: nat -> DbFault, r: ParseResult, xml: string, now: int, marshal: Marshal)
    : Outcome<string>
  {
    var flow := NewFlow(Text.Uuid(db.uuidNext), r, xml, now);
    var acc := ParseOperating(flow, r.nodes, db.uuidNext + 1, marshal);
    var nodes := acc.nodes.(nodeGroup := LinkFrom(acc.nodes.nodeGroup, acc.forms.formGroup, r.nodes, 0));
    CommitFlow(db.(uuidNext := acc.next), faults, Transitions.DefaultFlag(flow), nodes, acc.forms)
  }

  /** The one CreateFlow call of Deploy: its error, or the new flow's id. */
  function CommitFlow(db: Db, faults: nat -> DbFault, flow: Flow, nodes: NodeOperating, forms: FormOperating)
    : Outcome<string>
  {
    var o := CreateFlow(db, faults, flow, nodes, forms);
    Outcome(if o.result.Err? then Err(o.result.error) else Ok(flow.recordId), o.db)
  }

  /**
   * Deploy: a parse error is returned; an active flow with the same code
   * and a version at least as high is reused; otherwise a new flow and its
   * record groups are written by one CreateFlow.
   */
  function DeploySpec(db: Db, faults: nat -> DbFault, parsed: Result<ParseResult>, xml: string, now: int,
                      marshal: Marshal): Outcome<string>
  {
    match parsed
    case Err(e) => Outcome(Err(e), db)
    case Ok(r) =>
      var prior := GetFlowByCode(db, r.flowId);
      if prior.Some? && r.flowVersion <= prior.value.version then Outcome(Ok(prior.value.recordId), db)
      else WriteNewFlow(db, faults, r, xml, now, marshal)
  }
}
