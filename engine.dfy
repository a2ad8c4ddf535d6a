/**
 * The engine (engine.go): deployment of a parsed process definition.
 * Record ids come from the repository's UUID supply, one call per record
 * in the order the source makes them, so each method is proved to build
 * exactly the records the Deployment functions describe and to advance
 * the supply by the number of ids they draw.
 */
module FlowEngine {
  import opened Wrappers
  import opened Model
  import opened Operating
  import Tables
  import opened BpmnParse
  import opened Deployment
  import opened Expression
  import Service
  import Transitions

  class Engine {
    const flowSvc: Service.FlowService
    const execer: Execer
    const marshal: Marshal

    constructor (flowSvc: Service.FlowService, execer: Execer, marshal: Marshal)
      ensures this.flowSvc == flowSvc && this.execer == execer && this.marshal == marshal
    {
      this.flowSvc := flowSvc;
      this.execer := execer;
      this.marshal := marshal;
    }

    /** The scan for a form with this code: the position of the first one. */
    method FindForm(forms: seq<Form>, code: string) returns (k: Option<nat>)
      ensures k == FormIndex(forms, code)
    {
      for j := 0 to |forms|
        invariant forall i :: 0 <= i < j ==> forms[i].code != code
      {
        if forms[j].code == code {
          return Some(j);
        }
      }
      return None;
    }

    /** The scan for a node with this code: the position of the first one. */
    method FindNode(nodes: seq<Node>, code: string) returns (k: Option<nat>)
      ensures k == NodeIndex(nodes, code)
    {
      for j := 0 to |nodes|
        invariant forall i :: 0 <= i < j ==> nodes[i].code != code
      {
        if nodes[j].code == code {
          return Some(j);
        }
      }
      return None;
    }

    /** The option loop of one META field. */
    method AddOptions(group: seq<FieldOption>, fieldId: string, items: seq<FieldOptionResult>, created: int)
      returns (r: seq<FieldOption>)
      modifies flowSvc.repo
      ensures r == group + OptionRecords(fieldId, items, old(flowSvc.repo.db.uuidNext), created)
      ensures flowSvc.repo.db == old(flowSvc.repo.db).(uuidNext := old(flowSvc.repo.db.uuidNext) + |items|)
    {
      ghost var start := flowSvc.repo.db;
      ghost var want := OptionRecords(fieldId, items, start.uuidNext, created);
      r := group;
      for j := 0 to |items|
        invariant flowSvc.repo.db == start.(uuidNext := start.uuidNext + j)
        invariant r == group + want[..j]
      {
        var id := flowSvc.repo.NewUuid();
        r := r + [FieldOption(id, fieldId, items[j].id, items[j].name, created, 0)];
        assert want[..j + 1] == want[..j] + [want[j]];
      }
      assert want[..|items|] == want;
    }

    /** The property loop of one META field. */
    method AddFieldProperties(group: seq<FieldProperty>, fieldId: string, items: seq<FieldPropertyResult>, created: int)
      returns (r: seq<FieldProperty>)
      modifies flowSvc.repo
      ensures r == group + FieldPropertyRecords(fieldId, items, old(flowSvc.repo.db.uuidNext), created)
      ensures flowSvc.repo.db == old(flowSvc.repo.db).(uuidNext := old(flowSvc.repo.db.uuidNext) + |items|)
    {
      ghost var start := flowSvc.repo.db;
      ghost var want := FieldPropertyRecords(fieldId, items, start.uuidNext, created);
      r := group;
      for j := 0 to |items|
        invariant flowSvc.repo.db == start.(uuidNext := start.uuidNext + j)
        invariant r == group + want[..j]
      {
        var id := flowSvc.repo.NewUuid();
        r := r + [FieldProperty(id, fieldId, items[j].id, items[j].value, created, 0)];
        assert want[..j + 1] == want[..j] + [want[j]];
      }
      assert want[..|items|] == want;
    }

    /** The validation loop of one META field. */
    method AddValidations(group: seq<FieldValidation>, fieldId: string, items: seq<FieldValidationResult>, created: int)
      returns (r: seq<FieldValidation>)
      modifies flowSvc.repo
      ensures r == group + ValidationRecords(fieldId, items, old(flowSvc.repo.db.uuidNext), created)
      ensures flowSvc.repo.db == old(flowSvc.repo.db).(uuidNext := old(flowSvc.repo.db.uuidNext) + |items|)
    {
      ghost var start := flowSvc.repo.db;
      ghost var want := ValidationRecords(fieldId, items, start.uuidNext, created);
      r := group;
      for j := 0 to |items|
        invariant flowSvc.repo.db == start.(uuidNext := start.uuidNext + j)
        invariant r == group + want[..j]
      {
        var id := flowSvc.repo.NewUuid();
        r := r + [FieldValidation(id, fieldId, items[j].name, items[j].config, created, 0)];
        assert want[..j + 1] == want[..j] + [want[j]];
      }
      assert want[..|items|] == want;
    }

    /** One META field of parseFormOperating: options, properties, validations, then the field. */
    method AddField(forms: FormOperating, formId: string, ff: FormFieldResult, created: int) returns (r: FormOperating)
      modifies flowSvc.repo
      ensures r == FieldStep(forms, formId, ff, old(flowSvc.repo.db.uuidNext), created)
      ensures flowSvc.repo.db == old(flowSvc.repo.db).(uuidNext := old(flowSvc.repo.db.uuidNext) + FieldUuids(ff))
    {
      var fieldId := flowSvc.repo.NewUuid();
      var options := AddOptions(forms.fieldOptionGroup, fieldId, ff.values, created);
      var props := AddFieldProperties(forms.fieldPropertyGroup, fieldId, ff.properties, created);
      var checks := AddValidations(forms.fieldValidationGroup, fieldId, ff.validations, created);
      var field := FormField(fieldId, formId, ff.id, ff.labelText, ff.typeName, ff.defaultValue, created, 0);
      r := forms.(fieldOptionGroup := options, fieldPropertyGroup := props, fieldValidationGroup := checks,
                  formFieldGroup := forms.formFieldGroup + [field]);
    }

    /** parseFormOperating: the form groups after a node's form, and the form id the node gets. */
    method ParseFormOperating(forms: FormOperating, flow: Flow, fr: NodeFormResult) returns (r: FormOperating, formId: string)
      modifies flowSvc.repo
      ensures var p := FormStep(forms, flow, fr, old(flowSvc.repo.db.uuidNext), marshal);
              r == p.forms && formId == p.formId && flowSvc.repo.db == old(flowSvc.repo.db).(uuidNext := p.next)
    {
      if fr.id == "" {
        return forms, "";
      }
      var existing := FindForm(forms.formGroup, fr.id);
      if existing.Some? {
        return forms, forms.formGroup[existing.value].recordId;
      }
      ghost var start := flowSvc.repo.db;
      formId := flowSvc.repo.NewUuid();
      var fields := fr.fields;
      if |fields| == 2 && fields[0].id == "type_code" && fields[0].defaultValue == "URL" && fields[1].id == "data" {
        var form := Form(formId, flow.recordId, fr.id, "", "URL", fields[1].defaultValue, flow.created, 0);
        return forms.(formGroup := forms.formGroup + [form]), formId;
      }
      var meta := marshal(fields);
      r := forms;
      for k := 0 to |fields|
        invariant flowSvc.repo.db == start.(uuidNext := flowSvc.repo.db.uuidNext)
        invariant FieldsFrom(r, formId, fields, k, flowSvc.repo.db.uuidNext, flow.created)
                  == FieldsFrom(forms, formId, fields, 0, start.uuidNext + 1, flow.created)
      {
        r := AddField(r, formId, fields[k], flow.created);
      }
      r := r.(formGroup := r.formGroup + [Form(formId, flow.recordId, fr.id, "", "META", meta, flow.created, 0)]);
    }

    /** The assignment loop of parseOperating: one assignment per candidate expression. */
    method AddAssignments(group: seq<NodeAssignment>, nodeId: string, exps: seq<string>, created: int)
      returns (r: seq<NodeAssignment>)
      modifies flowSvc.repo
      ensures r == group + AssignmentRecords(nodeId, exps, old(flowSvc.repo.db.uuidNext), created)
      ensures flowSvc.repo.db == old(flowSvc.repo.db).(uuidNext := old(flowSvc.repo.db.uuidNext) + |exps|)
    {
      ghost var start := flowSvc.repo.db;
      ghost var want := AssignmentRecords(nodeId, exps, start.uuidNext, created);
      r := group;
      for j := 0 to |exps|
        invariant flowSvc.repo.db == start.(uuidNext := start.uuidNext + j)
        invariant r == group + want[..j]
      {
        var id := flowSvc.repo.NewUuid();
        r := r + [NodeAssignment(id, nodeId, exps[j], created, 0)];
        assert want[..j + 1] == want[..j] + [want[j]];
      }
      assert want[..|exps|] == want;
    }

    /** getNodeRecordID. */
    method GetNodeRecordId(nodes: seq<Node>, code: string) returns (id: string)
      ensures id == NodeRecordId(nodes, code)
    {
      var k := FindNode(nodes, code);
      id := if k.Some? then nodes[k.value].recordId else "";
    }

    /** The router loop of parseOperating for one parsed node. */
    method AddRouters(group: seq<Model.NodeRouter>, nodes: seq<Node>, n: NodeResult, created: int)
      returns (r: seq<Model.NodeRouter>)
      modifies flowSvc.repo
      ensures r == group + RouterRecords(nodes, NodeRecordId(nodes, n.nodeId), n.routers,
                                         old(flowSvc.repo.db.uuidNext), created)
      ensures flowSvc.repo.db == old(flowSvc.repo.db).(uuidNext := old(flowSvc.repo.db.uuidNext) + |n.routers|)
    {
      ghost var start := flowSvc.repo.db;
      ghost var want := RouterRecords(nodes, NodeRecordId(nodes, n.nodeId), n.routers, start.uuidNext, created);
      r := group;
      for j := 0 to |n.routers|
        invariant flowSvc.repo.db == start.(uuidNext := start.uuidNext + j)
        invariant r == group + want[..j]
      {
        var id := flowSvc.repo.NewUuid();
        var source := GetNodeRecordId(nodes, n.nodeId);
        var target := GetNodeRecordId(nodes, n.routers[j].targetNodeId);
        r := r + [Model.NodeRouter(id, source, target, n.routers[j].expression, n.routers[j].explain, created, 0)];
        assert want[..j + 1] == want[..j] + [want[j]];
      }
      assert want[..|n.routers|] == want;
    }

    /** The property loop of parseOperating for one parsed node. */
    method AddProperties(group: seq<NodeProperty>, nodes: seq<Node>, n: NodeResult, created: int)
      returns (r: seq<NodeProperty>)
      modifies flowSvc.repo
      ensures r == group + PropertyRecords(NodeRecordId(nodes, n.nodeId), n.properties,
                                           old(flowSvc.repo.db.uuidNext), created)
      ensures flowSvc.repo.db == old(flowSvc.repo.db).(uuidNext := old(flowSvc.repo.db.uuidNext) + |n.properties|)
    {
      ghost var start := flowSvc.repo.db;
      ghost var want := PropertyRecords(NodeRecordId(nodes, n.nodeId), n.properties, start.uuidNext, created);
      r := group;
      for j := 0 to |n.properties|
        invariant flowSvc.repo.db == start.(uuidNext := start.uuidNext + j)
        invariant r == group + want[..j]
      {
        var id := flowSvc.repo.NewUuid();
        var nodeId := GetNodeRecordId(nodes, n.nodeId);
        r := r + [NodeProperty(id, nodeId, n.properties[j].name, n.properties[j].value, created, 0)];
        assert want[..j + 1] == want[..j] + [want[j]];
      }
      assert want[..|n.properties|] == want;
    }

    /** The body of parseOperating's first loop for parsed node `i`: its node, form and assignments. */
    method AddNode(nodes: NodeOperating, forms: FormOperating, flow: Flow, n: NodeResult, i: nat)
      returns (nodes': NodeOperating, forms': FormOperating)
      modifies flowSvc.repo
      ensures var acc := NodeStep(Acc(nodes, forms, old(flowSvc.repo.db.uuidNext)), flow, n, i, marshal);
              nodes' == acc.nodes && forms' == acc.forms && flowSvc.repo.db == old(flowSvc.repo.db).(uuidNext := acc.next)
    {
      var nodeId := flowSvc.repo.NewUuid();
      var formId;
      forms', formId := ParseFormOperating(forms, flow, n.formResult);
      var node := NodeRecord(flow, n, i, nodeId).(formId := formId);
      var assignments := AddAssignments(nodes.assignmentGroup, nodeId, n.candidateExpressions, flow.created);
      nodes' := nodes.(nodeGroup := nodes.nodeGroup + [node], assignmentGroup := assignments);
    }

    /** The body of parseOperating's second loop for one parsed node: its routers and properties. */
    method AddLinks(nodes: NodeOperating, ghost forms: FormOperating, flow: Flow, n: NodeResult) returns (nodes': NodeOperating)
      modifies flowSvc.repo
      ensures LinkStep(Acc(nodes, forms, old(flowSvc.repo.db.uuidNext)), flow, n) == Acc(nodes', forms, flowSvc.repo.db.uuidNext)
      ensures flowSvc.repo.db == old(flowSvc.repo.db).(uuidNext := flowSvc.repo.db.uuidNext)
    {
      var routers := AddRouters(nodes.routerGroup, nodes.nodeGroup, n, flow.created);
      var props := AddProperties(nodes.propertyGroup, nodes.nodeGroup, n, flow.created);
      nodes' := nodes.(routerGroup := routers, propertyGroup := props);
    }

    /** parseOperating's first loop: each parsed node with its form and assignments, in order. */
    method AddNodes(flow: Flow, nrs: seq<NodeResult>) returns (nodes: NodeOperating, forms: FormOperating)
      modifies flowSvc.repo
      ensures var acc := FirstPass(Acc(NoNodes(), NoForms(), old(flowSvc.repo.db.uuidNext)), flow, nrs, 0, marshal);
              nodes == acc.nodes && forms == acc.forms && flowSvc.repo.db == old(flowSvc.repo.db).(uuidNext := acc.next)
    {
      ghost var start := flowSvc.repo.db;
      nodes := NoNodes();
      forms := NoForms();
      for i := 0 to |nrs|
        invariant flowSvc.repo.db == start.(uuidNext := flowSvc.repo.db.uuidNext)
        invariant FirstPass(Acc(nodes, forms, flowSvc.repo.db.uuidNext), flow, nrs, i, marshal)
                  == FirstPass(Acc(NoNodes(), NoForms(), start.uuidNext), flow, nrs, 0, marshal)
      {
        nodes, forms := AddNode(nodes, forms, flow, nrs[i], i);
      }
    }

    /** parseOperating's second loop: each parsed node's routers and properties, in order. */
    method AddAllLinks(nodes: NodeOperating, forms: FormOperating, flow: Flow, nrs: seq<NodeResult>)
      returns (nodes': NodeOperating)
      modifies flowSvc.repo
      ensures var acc := SecondPass(Acc(nodes, forms, old(flowSvc.repo.db.uuidNext)), flow, nrs, 0);
              nodes' == acc.nodes && forms == acc.forms && flowSvc.repo.db == old(flowSvc.repo.db).(uuidNext := acc.next)
    {
      ghost var start := flowSvc.repo.db;
      ghost var r := SecondPass(Acc(nodes, forms, start.uuidNext), flow, nrs, 0);
      nodes' := nodes;
      for i := 0 to |nrs|
        invariant flowSvc.repo.db == start.(uuidNext := flowSvc.repo.db.uuidNext)
        invariant SecondPass(Acc(nodes', forms, flowSvc.repo.db.uuidNext), flow, nrs, i) == r
      {
        nodes' := AddLinks(nodes', forms, flow, nrs[i]);
      }
    }

    /** parseOperating: the node and form groups of a parsed definition. */
    method ParseOperating(flow: Flow, nrs: seq<NodeResult>) returns (nodes: NodeOperating, forms: FormOperating)
      modifies flowSvc.repo
      ensures var acc := Deployment.ParseOperating(flow, nrs, old(flowSvc.repo.db.uuidNext), marshal);
              nodes == acc.nodes && forms == acc.forms && flowSvc.repo.db == old(flowSvc.repo.db).(uuidNext := acc.next)
    {
      nodes, forms := AddNodes(flow, nrs);
      nodes := AddAllLinks(nodes, forms, flow, nrs);
    }

    /** Deploy's linking step for one parsed node. */
    method LinkNode(nodes: seq<Node>, forms: seq<Form>, n: NodeResult) returns (r: seq<Node>)
      ensures r == LinkForm(nodes, forms, n)
    {
      r := nodes;
      if n.formResult.id != "" && |n.formResult.fields| == 0 {
        var k := FindForm(forms, n.formResult.id);
        var formId := if k.Some? then forms[k.value].recordId else "";
        if formId != "" {
          var j := FindNode(nodes, n.nodeId);
          if j.Some? {
            r := nodes[j.value := nodes[j.value].(formId := formId)];
          }
        }
      }
    }

    /** Deploy's loop linking nodes that have a form id but no fields. */
    method LinkNodes(nodes: seq<Node>, forms: seq<Form>, nrs: seq<NodeResult>) returns (r: seq<Node>)
      ensures r == LinkFrom(nodes, forms, nrs, 0)
    {
      r := nodes;
      for i := 0 to |nrs|
        invariant LinkFrom(r, forms, nrs, i) == LinkFrom(nodes, forms, nrs, 0)
      {
        r := LinkNode(r, forms, nrs[i]);
      }
    }

    /** The writing half of Deploy, from the new flow's id on. */
    method WriteNewFlow(result: ParseResult, xml: string, now: int) returns (id: string, err: Option<Error>)
      modifies flowSvc.repo
      ensures var o := Deployment.WriteNewFlow(old(flowSvc.repo.db), flowSvc.repo.faults, result, xml, now, marshal);
              flowSvc.repo.db == o.db && err == o.result.Failure() && id == (if o.result.Ok? then o.result.value else "")
    {
      ghost var start := flowSvc.repo.db;
      var recordId := flowSvc.repo.NewUuid();
      var flow := NewFlow(recordId, result, xml, now);
      ghost var acc := Deployment.ParseOperating(flow, result.nodes, start.uuidNext + 1, marshal);
      var nodeOps, formOps := ParseOperating(flow, result.nodes);
      assert flowSvc.repo.db == start.(uuidNext := acc.next);
      var linked := LinkNodes(nodeOps.nodeGroup, formOps.formGroup, result.nodes);
      nodeOps := nodeOps.(nodeGroup := linked);
      ghost var o := Tables.CreateFlow(start.(uuidNext := acc.next), flowSvc.repo.faults, Transitions.DefaultFlag(flow),
                                       nodeOps, formOps);
      assert Deployment.WriteNewFlow(start, flowSvc.repo.faults, result, xml, now, marshal)
             == Tables.Outcome(if o.result.Err? then Err(o.result.error) else Ok(flow.recordId), o.db);
      err := flowSvc.CreateFlow(flow, nodeOps, formOps);
      if err.Some? {
        return "", err;
      }
      return flow.recordId, None;
    }

    /**
     * Deploy: the parser's result (or error) and the definition's text are
     * given; the flow is reused or written with its record groups.
     */
    method Deploy(parsed: Result<ParseResult>, xml: string, now: int) returns (id: string, err: Option<Error>)
      modifies flowSvc.repo
      ensures var o := DeploySpec(old(flowSvc.repo.db), flowSvc.repo.faults, parsed, xml, now, marshal);
              flowSvc.repo.db == o.db && err == o.result.Failure() && id == (if o.result.Ok? then o.result.value else "")
    {
      if parsed.Err? {
        return "", Some(parsed.error);
      }
      var result := parsed.value;
      var prior := Tables.GetFlowByCode(flowSvc.repo.db, result.flowId);
      if prior.Some? && result.flowVersion <= prior.value.version {
        return prior.value.recordId, None;
      }
      id, err := WriteNewFlow(result, xml, now);
    }
  }
}
