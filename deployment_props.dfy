/**
 * What deploying a process definition promises (engine.go): the version
 * check, the single CreateFlow write, idempotence, and the shape of the
 * record groups parseOperating and parseFormOperating build.
 */
module DeploymentProps {
  import opened Wrappers
  import opened Model
  import opened Operating
  import opened NodeTypes
  import Text
  import opened BpmnParse
  import opened Tables
  import Transitions
  import TableLemmas
  import opened Deployment

  // ---------------------------------------------------------------------
  // parseFormOperating
  // ---------------------------------------------------------------------

  /** No two forms of the group share a code. */
  predicate UniqueCodes(fs: seq<Form>) {
    forall a, b :: 0 <= a < b < |fs| ==> fs[a].code != fs[b].code
  }

  /** Every option, property and validation references a field of the group. */
  predicate FieldRecordsLinked(forms: FormOperating) {
    && (forall o :: o in forms.fieldOptionGroup ==>
          exists x :: x in forms.formFieldGroup && x.recordId == o.fieldId)
    && (forall p :: p in forms.fieldPropertyGroup ==>
          exists x :: x in forms.formFieldGroup && x.recordId == p.fieldId)
    && (forall v :: v in forms.fieldValidationGroup ==>
          exists x :: x in forms.formFieldGroup && x.recordId == v.fieldId)
  }

  /** Every field references a form of the group. */
  predicate FieldsInForms(forms: FormOperating) {
    forall x :: x in forms.formFieldGroup ==> exists fm :: fm in forms.formGroup && fm.recordId == x.formId
  }

  predicate FormsWellFormed(forms: FormOperating) {
    UniqueCodes(forms.formGroup) && FieldRecordsLinked(forms) && FieldsInForms(forms)
  }

  /** One field appends its field record, of the form `formId`, and leaves the form group alone. */
  lemma FieldStepAppends(forms: FormOperating, formId: string, ff: FormFieldResult, next: nat, created: int)
    ensures var r := FieldStep(forms, formId, ff, next, created);
            && r.formGroup == forms.formGroup
            && r.formFieldGroup == forms.formFieldGroup
                 + [FormField(Text.Uuid(next), formId, ff.id, ff.labelText, ff.typeName, ff.defaultValue, created, 0)]
  {
  }

  /** Every option, property and validation record of a field carries the field's id. */
  lemma FieldRecordsOf(fieldId: string, ff: FormFieldResult, a: nat, b: nat, c: nat, created: int)
    ensures forall o :: o in OptionRecords(fieldId, ff.values, a, created) ==> o.fieldId == fieldId
    ensures forall p :: p in FieldPropertyRecords(fieldId, ff.properties, b, created) ==> p.fieldId == fieldId
    ensures forall v :: v in ValidationRecords(fieldId, ff.validations, c, created) ==> v.fieldId == fieldId
  {
    forall o | o in OptionRecords(fieldId, ff.values, a, created)
      ensures o.fieldId == fieldId
    {
      var s := OptionRecords(fieldId, ff.values, a, created);
      var j :| 0 <= j < |s| && s[j] == o;
    }
    forall p | p in FieldPropertyRecords(fieldId, ff.properties, b, created)
      ensures p.fieldId == fieldId
    {
      var s := FieldPropertyRecords(fieldId, ff.properties, b, created);
      var j :| 0 <= j < |s| && s[j] == p;
    }
    forall v | v in ValidationRecords(fieldId, ff.validations, c, created)
      ensures v.fieldId == fieldId
    {
      var s := ValidationRecords(fieldId, ff.validations, c, created);
      var j :| 0 <= j < |s| && s[j] == v;
    }
  }

  /** One field: its options, properties and validations reference its record. */
  lemma FieldStepLinks(forms: FormOperating, formId: string, ff: FormFieldResult, next: nat, created: int)
    requires FieldRecordsLinked(forms)
    ensures FieldRecordsLinked(FieldStep(forms, formId, ff, next, created))
  {
    var r := FieldStep(forms, formId, ff, next, created);
    var fieldId := Text.Uuid(next);
    FieldStepAppends(forms, formId, ff, next, created);
    FieldRecordsOf(fieldId, ff, next + 1, next + 1 + |ff.values|, next + 1 + |ff.values| + |ff.properties|, created);
    var field := r.formFieldGroup[|forms.formFieldGroup|];
    assert field in r.formFieldGroup && field.recordId == fieldId;
    assert forall x :: x in forms.formFieldGroup ==> x in r.formFieldGroup;
  }

  /** The fields from `k` on: every option, property and validation still references a field. */
  lemma {:induction false} FieldsFromLinks(forms: FormOperating, formId: string, fields: seq<FormFieldResult>,
                                           k: nat, next: nat, created: int)
    requires k <= |fields| && FieldRecordsLinked(forms)
    ensures FieldRecordsLinked(FieldsFrom(forms, formId, fields, k, next, created).0)
    decreases |fields| - k
  {
    if k < |fields| {
      FieldStepLinks(forms, formId, fields[k], next, created);
      FieldsFromLinks(FieldStep(forms, formId, fields[k], next, created), formId, fields, k + 1,
                      next + FieldUuids(fields[k]), created);
    }
  }

  /**
   * parseFormOperating keeps the groups well formed and only adds forms: an
   * empty form id adds nothing and links nothing; a code already in the
   * group is reused, adding nothing; otherwise the node is linked to a form
   * of the group with that code.
   */
  lemma FormStepWellFormed(forms: FormOperating, flow: Flow, fr: NodeFormResult, next: nat, marshal: Marshal)
    requires FormsWellFormed(forms)
    ensures var p := FormStep(forms, flow, fr, next, marshal);
            && FormsWellFormed(p.forms)
            && (forall fm :: fm in forms.formGroup ==> fm in p.forms.formGroup)
            && (fr.id == "" ==> p == FormPlan(forms, "", next))
            && (fr.id != "" && FormIndex(forms.formGroup, fr.id).Some? ==> p.forms == forms && p.next == next)
            && (fr.id != "" ==> exists k :: 0 <= k < |p.forms.formGroup| && p.forms.formGroup[k].code == fr.id
                                            && p.forms.formGroup[k].recordId == p.formId)
  {
    var p := FormStep(forms, flow, fr, next, marshal);
    if fr.id != "" {
      match FormIndex(forms.formGroup, fr.id)
      case Some(k) =>
      case None =>
        var formId := Text.Uuid(next);
        var n := |forms.formGroup|;
        assert forall j :: 0 <= j < n ==> forms.formGroup[j].code != fr.id;
        if !IsUrlForm(fr.fields) {
          FieldsFromLinks(forms, formId, fr.fields, 0, next + 1, flow.created);
          FieldsFromOrder(forms, formId, fr.fields, 0, next + 1, flow.created);
          var done := FieldsFrom(forms, formId, fr.fields, 0, next + 1, flow.created).0;
          var form := p.forms.formGroup[n];
          assert form.recordId == formId;
          forall x | x in p.forms.formFieldGroup
            ensures exists fm :: fm in p.forms.formGroup && fm.recordId == x.formId
          {
            var j :| 0 <= j < |done.formFieldGroup| && done.formFieldGroup[j] == x;
            if j < |forms.formFieldGroup| {
              assert x == done.formFieldGroup[..|forms.formFieldGroup|][j];
              var fm :| fm in forms.formGroup && fm.recordId == x.formId;
              assert fm in p.forms.formGroup;
            } else {
              assert x.formId == formId;
              assert form in p.forms.formGroup;
            }
          }
        } else {
          forall x | x in p.forms.formFieldGroup
            ensures exists fm :: fm in p.forms.formGroup && fm.recordId == x.formId
          {
            var fm :| fm in forms.formGroup && fm.recordId == x.formId;
            assert fm in p.forms.formGroup;
          }
        }
        assert p.forms.formGroup[n].code == fr.id;
    }
  }

  /**
   * A new form: a URL form has type URL, takes its data from the second
   * field's default and adds no field records; any other form is a META
   * form with one field record per field, in order, each of that form.
   */
  lemma NewFormShape(forms: FormOperating, flow: Flow, fr: NodeFormResult, next: nat, marshal: Marshal)
    requires fr.id != "" && FormIndex(forms.formGroup, fr.id).None?
    ensures var p := FormStep(forms, flow, fr, next, marshal);
            var n := |forms.formGroup|;
            && p.formId == Text.Uuid(next)
            && |p.forms.formGroup| == n + 1 && p.forms.formGroup[..n] == forms.formGroup
            && p.forms.formGroup[n].recordId == p.formId && p.forms.formGroup[n].code == fr.id
            && p.forms.formGroup[n].flowId == flow.recordId
            && (IsUrlForm(fr.fields) ==>
                  && p.forms.formGroup[n].typeCode == "URL" && p.forms.formGroup[n].data == fr.fields[1].defaultValue
                  && p.forms.formFieldGroup == forms.formFieldGroup
                  && p.forms.fieldOptionGroup == forms.fieldOptionGroup
                  && p.forms.fieldPropertyGroup == forms.fieldPropertyGroup
                  && p.forms.fieldValidationGroup == forms.fieldValidationGroup)
            && (!IsUrlForm(fr.fields) ==>
                  var m := |forms.formFieldGroup|;
                  && p.forms.formGroup[n].typeCode == "META" && p.forms.formGroup[n].data == marshal(fr.fields)
                  && |p.forms.formFieldGroup| == m + |fr.fields|
                  && p.forms.formFieldGroup[..m] == forms.formFieldGroup
                  && forall q :: m <= q < |p.forms.formFieldGroup| ==>
                       p.forms.formFieldGroup[q].formId == p.formId
                       && p.forms.formFieldGroup[q].code == fr.fields[q - m].id)
  {
    var p := FormStep(forms, flow, fr, next, marshal);
    var formId := Text.Uuid(next);
    if IsUrlForm(fr.fields) {
      var form := Form(formId, flow.recordId, fr.id, "", "URL", fr.fields[1].defaultValue, flow.created, 0);
      assert p.forms == forms.(formGroup := forms.formGroup + [form]);
    } else {
      FieldsFromOrder(forms, formId, fr.fields, 0, next + 1, flow.created);
      var done := FieldsFrom(forms, formId, fr.fields, 0, next + 1, flow.created).0;
      var form := Form(formId, flow.recordId, fr.id, "", "META", marshal(fr.fields), flow.created, 0);
      assert p.forms == done.(formGroup := done.formGroup + [form]);
    }
    assert p.forms.formGroup[..|forms.formGroup|] == forms.formGroup;
  }

  /**
   * The fields from `k` on: one field record per field, in order, each of
   * the form `formId` and carrying its field's code; the form group is not
   * touched.
   */
  lemma {:induction false} FieldsFromOrder(forms: FormOperating, formId: string, fields: seq<FormFieldResult>,
                                           k: nat, next: nat, created: int)
    requires k <= |fields|
    ensures var r := FieldsFrom(forms, formId, fields, k, next, created).0;
            var n := |forms.formFieldGroup|;
            && r.formGroup == forms.formGroup
            && FieldsOfForm(r.formFieldGroup, n, formId, fields, k)
            && r.formFieldGroup[..n] == forms.formFieldGroup
    decreases |fields| - k
  {
    var n := |forms.formFieldGroup|;
    if k == |fields| {
      assert forms.formFieldGroup[..n] == forms.formFieldGroup;
    } else {
      var s := FieldStep(forms, formId, fields[k], next, created);
      FieldStepAppends(forms, formId, fields[k], next, created);
      FieldsFromOrder(s, formId, fields, k + 1, next + FieldUuids(fields[k]), created);
      var r := FieldsFrom(s, formId, fields, k + 1, next + FieldUuids(fields[k]), created).0;
      assert r == FieldsFrom(forms, formId, fields, k, next, created).0;
      FieldsOfFormCons(r.formFieldGroup, s.formFieldGroup, n, formId, fields, k);
    }
  }

  /** From position `n` on, `ff` holds one record per field from `k` on, naming the form and carrying the field's id. */
  predicate FieldsOfForm(ff: seq<FormField>, n: nat, formId: string, fields: seq<FormFieldResult>, k: nat) {
    && k <= |fields| && |ff| == n + |fields| - k
    && forall q :: n <= q < |ff| ==> ff[q].formId == formId && ff[q].code == fields[k + q - n].id
  }

  /** Prepending one field record to an ordered tail. */
  lemma FieldsOfFormCons(ff: seq<FormField>, mid: seq<FormField>, n: nat, formId: string,
                         fields: seq<FormFieldResult>, k: nat)
    requires k < |fields| && |mid| == n + 1 && FieldsOfForm(ff, n + 1, formId, fields, k + 1) && ff[..n + 1] == mid
    requires mid[n].formId == formId && mid[n].code == fields[k].id
    ensures FieldsOfForm(ff, n, formId, fields, k) && ff[..n] == mid[..n]
  {
    forall q | n <= q < |ff|
      ensures ff[q].formId == formId && ff[q].code == fields[k + q - n].id
    {
      if q == n {
        assert ff[q] == ff[..n + 1][n];
      } else {
        assert k + 1 + q - (n + 1) == k + q - n;
      }
    }
  }

  // ---------------------------------------------------------------------
  // parseOperating
  // ---------------------------------------------------------------------

  /** The node record of parsed node `i`: its code, name and type, the flow's id and the order number i+10. */
  predicate NodeOf(x: Node, flow: Flow, n: NodeResult, i: nat) {
    && x.flowId == flow.recordId && x.code == n.nodeId && x.name == n.nodeName
    && x.typeCode == Name(n.nodeType) && x.orderNum == Text.NatToDecimal(i + 10) && x.deleted == 0
  }

  /** Every assignment references a node of the group. */
  predicate AssignmentsLinked(nodes: NodeOperating) {
    forall a :: a in nodes.assignmentGroup ==> exists x :: x in nodes.nodeGroup && x.recordId == a.nodeId
  }

  /** Every node with a form id references a form of the group. */
  predicate FormIdsResolve(nodes: seq<Node>, forms: seq<Form>) {
    forall x :: x in nodes && x.formId != "" ==> exists fm :: fm in forms && fm.recordId == x.formId
  }

  /** The invariant of parseOperating's first loop. */
  predicate Built(acc: Acc) {
    FormsWellFormed(acc.forms) && AssignmentsLinked(acc.nodes) && FormIdsResolve(acc.nodes.nodeGroup, acc.forms.formGroup)
  }

  function ExpressionCount(nrs: seq<NodeResult>, i: nat): nat
    requires i <= |nrs|
    decreases |nrs| - i
  {
    if i == |nrs| then 0 else |nrs[i].candidateExpressions| + ExpressionCount(nrs, i + 1)
  }

  function RouterCount(nrs: seq<NodeResult>, i: nat): nat
    requires i <= |nrs|
    decreases |nrs| - i
  {
    if i == |nrs| then 0 else |nrs[i].routers| + RouterCount(nrs, i + 1)
  }

  function PropertyCount(nrs: seq<NodeResult>, i: nat): nat
    requires i <= |nrs|
    decreases |nrs| - i
  {
    if i == |nrs| then 0 else |nrs[i].properties| + PropertyCount(nrs, i + 1)
  }

  /**
   * Each element of `s` paired with one node's key, in order: a node
   * record's id with its candidate expressions, or a node's code with its
   * parsed routers or properties.
   */
  function Tagged<T>(key: string, s: seq<T>): (r: seq<(string, T)>)
    ensures |r| == |s|
    ensures forall j :: 0 <= j < |s| ==> r[j] == (key, s[j])
  {
    seq(|s|, j requires 0 <= j < |s| => (key, s[j]))
  }

  /**
   * The assignments node records `n` onwards get from parsed nodes `i`
   * onwards: node after node, each node's candidate expressions in order.
   */
  function ExpectedAssignments(ng: seq<Node>, n: nat, nrs: seq<NodeResult>, i: nat): (r: seq<(string, string)>)
    requires i <= |nrs| && n <= |ng| && |ng| - n == |nrs| - i
    ensures |r| == ExpressionCount(nrs, i)
    decreases |nrs| - i
  {
    if i == |nrs| then []
    else Tagged(ng[n].recordId, nrs[i].candidateExpressions) + ExpectedAssignments(ng, n + 1, nrs, i + 1)
  }

  /** From position `m` on, `ag` holds exactly these (node id, expression) pairs, in order. */
  predicate AssignsFrom(ag: seq<NodeAssignment>, m: nat, pairs: seq<(string, string)>) {
    && |ag| == m + |pairs|
    && forall t :: 0 <= t < |pairs| ==> ag[m + t].nodeId == pairs[t].0 && ag[m + t].expression == pairs[t].1
  }

  /** One node's block of assignments followed by the blocks of the nodes after it. */
  lemma AssignsFromCons(ag: seq<NodeAssignment>, mid: seq<NodeAssignment>, m: nat,
                        head: seq<(string, string)>, rest: seq<(string, string)>)
    requires AssignsFrom(mid, m, head) && AssignsFrom(ag, |mid|, rest) && ag[..|mid|] == mid
    ensures AssignsFrom(ag, m, head + rest) && ag[..m] == mid[..m]
  {
    forall t | 0 <= t < |head + rest|
      ensures ag[m + t].nodeId == (head + rest)[t].0 && ag[m + t].expression == (head + rest)[t].1
    {
      if t < |head| {
        assert ag[m + t] == ag[..|mid|][m + t];
      } else {
        assert m + t == |mid| + (t - |head|);
      }
    }
  }

  /**
   * One parsed node: one node record is appended, with one assignment per
   * candidate expression referencing it, and its form id, if any, is that
   * of a form of the group.
   */
  lemma NodeStepBuilds(acc: Acc, flow: Flow, n: NodeResult, i: nat, marshal: Marshal)
    requires Built(acc)
    ensures var r := NodeStep(acc, flow, n, i, marshal);
            var k := |acc.nodes.nodeGroup|;
            && Built(r)
            && |r.nodes.nodeGroup| == k + 1 && r.nodes.nodeGroup[..k] == acc.nodes.nodeGroup
            && NodeOf(r.nodes.nodeGroup[k], flow, n, i)
            && AssignsFrom(r.nodes.assignmentGroup, |acc.nodes.assignmentGroup|,
                           Tagged(r.nodes.nodeGroup[k].recordId, n.candidateExpressions))
            && r.nodes.assignmentGroup[..|acc.nodes.assignmentGroup|] == acc.nodes.assignmentGroup
            && r.nodes.routerGroup == acc.nodes.routerGroup && r.nodes.propertyGroup == acc.nodes.propertyGroup
  {
    var p := FormStep(acc.forms, flow, n.formResult, acc.next + 1, marshal);
    FormStepWellFormed(acc.forms, flow, n.formResult, acc.next + 1, marshal);
    var r := NodeStep(acc, flow, n, i, marshal);
    var k := |acc.nodes.nodeGroup|;
    var node := r.nodes.nodeGroup[k];
    assert r.nodes.nodeGroup == acc.nodes.nodeGroup + [node];
    assert r.nodes.nodeGroup[..k] == acc.nodes.nodeGroup;
    var added := AssignmentRecords(Text.Uuid(acc.next), n.candidateExpressions, p.next, flow.created);
    assert r.nodes.assignmentGroup == acc.nodes.assignmentGroup + added;
    assert r.nodes.assignmentGroup[..|acc.nodes.assignmentGroup|] == acc.nodes.assignmentGroup;
    forall a | a in r.nodes.assignmentGroup
      ensures exists x :: x in r.nodes.nodeGroup && x.recordId == a.nodeId
    {
      if a in acc.nodes.assignmentGroup {
        var x :| x in acc.nodes.nodeGroup && x.recordId == a.nodeId;
        assert x in r.nodes.nodeGroup;
      } else {
        var j :| 0 <= j < |added| && added[j] == a;
        assert node in r.nodes.nodeGroup;
      }
    }
    forall x | x in r.nodes.nodeGroup && x.formId != ""
      ensures exists fm :: fm in r.forms.formGroup && fm.recordId == x.formId
    {
      if x in acc.nodes.nodeGroup {
        var fm :| fm in acc.forms.formGroup && fm.recordId == x.formId;
        assert fm in r.forms.formGroup;
      } else {
        var q :| 0 <= q < |p.forms.formGroup| && p.forms.formGroup[q].code == n.formResult.id
                 && p.forms.formGroup[q].recordId == p.formId;
        assert p.forms.formGroup[q] in r.forms.formGroup;
      }
    }
  }

  /** Node records from position `n` on are those of parsed nodes `i` onwards, in order. */
  predicate NodesFrom(ng: seq<Node>, n: nat, flow: Flow, nrs: seq<NodeResult>, i: nat) {
    && i <= |nrs| && |ng| == n + |nrs| - i
    && forall q :: n <= q < |ng| ==> NodeOf(ng[q], flow, nrs[i + q - n], i + q - n)
  }

  /** Prepending one node record to an ordered tail. */
  lemma NodesFromCons(ng: seq<Node>, mid: seq<Node>, n: nat, flow: Flow, nrs: seq<NodeResult>, i: nat)
    requires i < |nrs| && |mid| == n + 1 && NodesFrom(ng, n + 1, flow, nrs, i + 1) && ng[..n + 1] == mid
    requires NodeOf(mid[n], flow, nrs[i], i)
    ensures NodesFrom(ng, n, flow, nrs, i) && ng[..n] == mid[..n]
  {
    forall q | n <= q < |ng|
      ensures NodeOf(ng[q], flow, nrs[i + q - n], i + q - n)
    {
      if q == n {
        assert ng[q] == ng[..n + 1][n];
      } else {
        assert i + 1 + q - (n + 1) == i + q - n;
      }
    }
  }

  /**
   * parseOperating's first loop from parsed node `i` on: one node record
   * per parsed node, in order, one assignment per candidate expression,
   * and the invariant kept.
   */
  lemma {:induction false} FirstPassBuilds(acc: Acc, flow: Flow, nrs: seq<NodeResult>, i: nat, marshal: Marshal)
    requires i <= |nrs| && Built(acc)
    ensures var r := FirstPass(acc, flow, nrs, i, marshal);
            var n := |acc.nodes.nodeGroup|;
            && Built(r)
            && NodesFrom(r.nodes.nodeGroup, n, flow, nrs, i) && r.nodes.nodeGroup[..n] == acc.nodes.nodeGroup
            && AssignsFrom(r.nodes.assignmentGroup, |acc.nodes.assignmentGroup|,
                           ExpectedAssignments(r.nodes.nodeGroup, n, nrs, i))
            && r.nodes.assignmentGroup[..|acc.nodes.assignmentGroup|] == acc.nodes.assignmentGroup
            && r.nodes.routerGroup == acc.nodes.routerGroup && r.nodes.propertyGroup == acc.nodes.propertyGroup
    decreases |nrs| - i
  {
    var n := |acc.nodes.nodeGroup|;
    var m := |acc.nodes.assignmentGroup|;
    if i == |nrs| {
      assert acc.nodes.nodeGroup[..n] == acc.nodes.nodeGroup;
      assert acc.nodes.assignmentGroup[..m] == acc.nodes.assignmentGroup;
    } else {
      var s := NodeStep(acc, flow, nrs[i], i, marshal);
      NodeStepBuilds(acc, flow, nrs[i], i, marshal);
      FirstPassBuilds(s, flow, nrs, i + 1, marshal);
      var r := FirstPass(s, flow, nrs, i + 1, marshal);
      NodesFromCons(r.nodes.nodeGroup, s.nodes.nodeGroup, n, flow, nrs, i);
      assert r.nodes.nodeGroup[n] == s.nodes.nodeGroup[n] by { assert r.nodes.nodeGroup[..n + 1] == s.nodes.nodeGroup; }
      AssignsFromCons(r.nodes.assignmentGroup, s.nodes.assignmentGroup, m,
                      Tagged(s.nodes.nodeGroup[n].recordId, nrs[i].candidateExpressions),
                      ExpectedAssignments(r.nodes.nodeGroup, n + 1, nrs, i + 1));
    }
  }

  /** A router record made from parsed router `rr` of parsed node `p`, with both ends resolved by code. */
  predicate RouterFromParsed(x: NodeRouter, ng: seq<Node>, nrs: seq<NodeResult>) {
    exists p, rr :: p in nrs && rr in p.routers
                    && x.sourceNodeId == NodeRecordId(ng, p.nodeId) && x.targetNodeId == NodeRecordId(ng, rr.targetNodeId)
                    && x.expression == rr.expression && x.explain == rr.explain
  }

  /** The routers and properties parsed nodes `i` onwards carry, each with its node's code, node after node. */
  function ExpectedRouters(nrs: seq<NodeResult>, i: nat): (r: seq<(string, RouterResult)>)
    requires i <= |nrs|
    ensures |r| == RouterCount(nrs, i)
    decreases |nrs| - i
  {
    if i == |nrs| then [] else Tagged(nrs[i].nodeId, nrs[i].routers) + ExpectedRouters(nrs, i + 1)
  }

  function ExpectedProperties(nrs: seq<NodeResult>, i: nat): (r: seq<(string, PropertyResult)>)
    requires i <= |nrs|
    ensures |r| == PropertyCount(nrs, i)
    decreases |nrs| - i
  {
    if i == |nrs| then [] else Tagged(nrs[i].nodeId, nrs[i].properties) + ExpectedProperties(nrs, i + 1)
  }

  /**
   * From position `m` on, `rg` holds one router record per (source code,
   * parsed router) pair, in order, both ends resolved by code in `ng`.
   */
  predicate RoutersFrom(rg: seq<NodeRouter>, m: nat, ng: seq<Node>, pairs: seq<(string, RouterResult)>) {
    && |rg| == m + |pairs|
    && forall t :: 0 <= t < |pairs| ==> RouterMatches(rg[m + t], ng, pairs[t])
  }

  /** A router record made from one (node code, parsed router) pair: record ids resolved by code, texts copied. */
  predicate RouterMatches(x: NodeRouter, ng: seq<Node>, pair: (string, RouterResult)) {
    && x.sourceNodeId == NodeRecordId(ng, pair.0)
    && x.targetNodeId == NodeRecordId(ng, pair.1.targetNodeId)
    && x.expression == pair.1.expression && x.explain == pair.1.explain
  }

  /** From position `m` on, `pg` holds one property record per (node code, parsed property) pair, in order. */
  predicate PropertiesFrom(pg: seq<NodeProperty>, m: nat, ng: seq<Node>, pairs: seq<(string, PropertyResult)>) {
    && |pg| == m + |pairs|
    && forall t :: 0 <= t < |pairs| ==> PropertyMatches(pg[m + t], ng, pairs[t])
  }

  /** A property record made from one (node code, parsed property) pair: node record id resolved by code, name and value copied. */
  predicate PropertyMatches(x: NodeProperty, ng: seq<Node>, pair: (string, PropertyResult)) {
    x.nodeId == NodeRecordId(ng, pair.0) && x.name == pair.1.name && x.value == pair.1.value
  }

  lemma RoutersFromCons(rg: seq<NodeRouter>, mid: seq<NodeRouter>, m: nat, ng: seq<Node>,
                        head: seq<(string, RouterResult)>, rest: seq<(string, RouterResult)>)
    requires RoutersFrom(mid, m, ng, head) && RoutersFrom(rg, |mid|, ng, rest) && rg[..|mid|] == mid
    ensures RoutersFrom(rg, m, ng, head + rest) && rg[..m] == mid[..m]
  {
    forall t | 0 <= t < |head + rest|
      ensures RouterMatches(rg[m + t], ng, (head + rest)[t])
    {
      if t < |head| {
        assert rg[m + t] == mid[m + t] && (head + rest)[t] == head[t];
        assert RouterMatches(mid[m + t], ng, head[t]);
      } else {
        var u := t - |head|;
        assert m + t == |mid| + u && (head + rest)[t] == rest[u];
        assert RouterMatches(rg[|mid| + u], ng, rest[u]);
      }
    }
  }

  lemma PropertiesFromCons(pg: seq<NodeProperty>, mid: seq<NodeProperty>, m: nat, ng: seq<Node>,
                           head: seq<(string, PropertyResult)>, rest: seq<(string, PropertyResult)>)
    requires PropertiesFrom(mid, m, ng, head) && PropertiesFrom(pg, |mid|, ng, rest) && pg[..|mid|] == mid
    ensures PropertiesFrom(pg, m, ng, head + rest) && pg[..m] == mid[..m]
  {
    forall t | 0 <= t < |head + rest|
      ensures PropertyMatches(pg[m + t], ng, (head + rest)[t])
    {
      if t < |head| {
        assert pg[m + t] == mid[m + t] && (head + rest)[t] == head[t];
        assert PropertyMatches(mid[m + t], ng, head[t]);
      } else {
        var u := t - |head|;
        assert m + t == |mid| + u && (head + rest)[t] == rest[u];
        assert PropertyMatches(pg[|mid| + u], ng, rest[u]);
      }
    }
  }

  /** One parsed node's routers and properties: its routers are made from its parsed routers; nothing else changes. */
  lemma LinkStepLinks(acc: Acc, flow: Flow, n: NodeResult, nrs: seq<NodeResult>)
    requires n in nrs
    requires forall x :: x in acc.nodes.routerGroup ==> RouterFromParsed(x, acc.nodes.nodeGroup, nrs)
    ensures var r := LinkStep(acc, flow, n);
            var ng := acc.nodes.nodeGroup;
            && r.nodes.nodeGroup == ng && r.nodes.assignmentGroup == acc.nodes.assignmentGroup
            && r.forms == acc.forms
            && RoutersFrom(r.nodes.routerGroup, |acc.nodes.routerGroup|, ng, Tagged(n.nodeId, n.routers))
            && r.nodes.routerGroup[..|acc.nodes.routerGroup|] == acc.nodes.routerGroup
            && PropertiesFrom(r.nodes.propertyGroup, |acc.nodes.propertyGroup|, ng, Tagged(n.nodeId, n.properties))
            && r.nodes.propertyGroup[..|acc.nodes.propertyGroup|] == acc.nodes.propertyGroup
            && forall x :: x in r.nodes.routerGroup ==> RouterFromParsed(x, r.nodes.nodeGroup, nrs)
  {
    var ng := acc.nodes.nodeGroup;
    var added := RouterRecords(ng, NodeRecordId(ng, n.nodeId), n.routers, acc.next, flow.created);
    var props := PropertyRecords(NodeRecordId(ng, n.nodeId), n.properties, acc.next + |n.routers|, flow.created);
    var r := LinkStep(acc, flow, n);
    assert r.nodes.routerGroup == acc.nodes.routerGroup + added;
    assert r.nodes.propertyGroup == acc.nodes.propertyGroup + props;
    assert r.nodes.routerGroup[..|acc.nodes.routerGroup|] == acc.nodes.routerGroup;
    assert r.nodes.propertyGroup[..|acc.nodes.propertyGroup|] == acc.nodes.propertyGroup;
    forall x | x in r.nodes.routerGroup
      ensures RouterFromParsed(x, r.nodes.nodeGroup, nrs)
    {
      if x !in acc.nodes.routerGroup {
        var j :| 0 <= j < |added| && added[j] == x;
        assert n.routers[j] in n.routers;
      }
    }
  }

  /** parseOperating's second loop from parsed node `i` on. */
  lemma {:induction false} SecondPassLinks(acc: Acc, flow: Flow, nrs: seq<NodeResult>, i: nat)
    requires i <= |nrs|
    requires forall x :: x in acc.nodes.routerGroup ==> RouterFromParsed(x, acc.nodes.nodeGroup, nrs)
    ensures var r := SecondPass(acc, flow, nrs, i);
            var ng := acc.nodes.nodeGroup;
            && r.nodes.nodeGroup == ng && r.nodes.assignmentGroup == acc.nodes.assignmentGroup
            && r.forms == acc.forms
            && RoutersFrom(r.nodes.routerGroup, |acc.nodes.routerGroup|, ng, ExpectedRouters(nrs, i))
            && r.nodes.routerGroup[..|acc.nodes.routerGroup|] == acc.nodes.routerGroup
            && PropertiesFrom(r.nodes.propertyGroup, |acc.nodes.propertyGroup|, ng, ExpectedProperties(nrs, i))
            && r.nodes.propertyGroup[..|acc.nodes.propertyGroup|] == acc.nodes.propertyGroup
            && forall x :: x in r.nodes.routerGroup ==> RouterFromParsed(x, r.nodes.nodeGroup, nrs)
    decreases |nrs| - i
  {
    var ng := acc.nodes.nodeGroup;
    if i == |nrs| {
      assert acc.nodes.routerGroup[..|acc.nodes.routerGroup|] == acc.nodes.routerGroup;
      assert acc.nodes.propertyGroup[..|acc.nodes.propertyGroup|] == acc.nodes.propertyGroup;
    } else {
      var s := LinkStep(acc, flow, nrs[i]);
      LinkStepLinks(acc, flow, nrs[i], nrs);
      SecondPassLinks(s, flow, nrs, i + 1);
      var r := SecondPass(s, flow, nrs, i + 1);
      RoutersFromCons(r.nodes.routerGroup, s.nodes.routerGroup, |acc.nodes.routerGroup|, ng,
                      Tagged(nrs[i].nodeId, nrs[i].routers), ExpectedRouters(nrs, i + 1));
      PropertiesFromCons(r.nodes.propertyGroup, s.nodes.propertyGroup, |acc.nodes.propertyGroup|, ng,
                         Tagged(nrs[i].nodeId, nrs[i].properties), ExpectedProperties(nrs, i + 1));
    }
  }

  /**
   * parseOperating: one node record per parsed node, in order, with the
   * flow's id and order number i+10; one assignment per candidate
   * expression and one router record per parsed router, each referencing
   * nodes of the group; one property record per parsed property; forms
   * with unique codes whose field records all reference their form and
   * field, and node form ids that name a form of the group.
   */
  lemma ParseOperatingBuilds(flow: Flow, nrs: seq<NodeResult>, next: nat, marshal: Marshal)
    ensures var acc := ParseOperating(flow, nrs, next, marshal);
            && |acc.nodes.nodeGroup| == |nrs|
            && (forall i :: 0 <= i < |nrs| ==> NodeOf(acc.nodes.nodeGroup[i], flow, nrs[i], i))
            && |acc.nodes.assignmentGroup| == ExpressionCount(nrs, 0) && AssignmentsLinked(acc.nodes)
            && AssignsFrom(acc.nodes.assignmentGroup, 0, ExpectedAssignments(acc.nodes.nodeGroup, 0, nrs, 0))
            && |acc.nodes.routerGroup| == RouterCount(nrs, 0)
            && RoutersFrom(acc.nodes.routerGroup, 0, acc.nodes.nodeGroup, ExpectedRouters(nrs, 0))
            && (forall x :: x in acc.nodes.routerGroup ==> RouterFromParsed(x, acc.nodes.nodeGroup, nrs))
            && |acc.nodes.propertyGroup| == PropertyCount(nrs, 0)
            && PropertiesFrom(acc.nodes.propertyGroup, 0, acc.nodes.nodeGroup, ExpectedProperties(nrs, 0))
            && FormsWellFormed(acc.forms) && FormIdsResolve(acc.nodes.nodeGroup, acc.forms.formGroup)
  {
    var start := Acc(NoNodes(), NoForms(), next);
    FirstPassBuilds(start, flow, nrs, 0, marshal);
    var first := FirstPass(start, flow, nrs, 0, marshal);
    SecondPassLinks(first, flow, nrs, 0);
    assert NodesFrom(first.nodes.nodeGroup, 0, flow, nrs, 0);
    forall i | 0 <= i < |nrs|
      ensures NodeOf(first.nodes.nodeGroup[i], flow, nrs[i], i)
    {
      assert 0 + i - 0 == i;
    }
  }

  // ---------------------------------------------------------------------
  // Deploy
  // ---------------------------------------------------------------------

  /**
   * Deploy's form linking only changes form ids, and every form id it sets
   * names a form of the group.
   */
  lemma {:induction false} LinkFromResolves(nodes: seq<Node>, forms: seq<Form>, nrs: seq<NodeResult>, i: nat)
    requires i <= |nrs| && FormIdsResolve(nodes, forms)
    ensures var r := LinkFrom(nodes, forms, nrs, i);
            && |r| == |nodes| && FormIdsResolve(r, forms)
            && forall q :: 0 <= q < |r| ==> r[q] == nodes[q].(formId := r[q].formId)
    decreases |nrs| - i
  {
    if i < |nrs| {
      var s := LinkForm(nodes, forms, nrs[i]);
      assert |s| == |nodes| && forall q :: 0 <= q < |s| ==> s[q] == nodes[q].(formId := s[q].formId);
      forall x | x in s && x.formId != ""
        ensures exists fm :: fm in forms && fm.recordId == x.formId
      {
        if x !in nodes {
          var k := FormIndex(forms, nrs[i].formResult.id).value;
          assert forms[k] in forms;
        }
      }
      LinkFromResolves(s, forms, nrs, i + 1);
    }
  }

  /** A redeploy whose version is not above the active flow's reuses that flow and writes nothing. */
  lemma DeployReuses(db: Db, faults: nat -> DbFault, r: ParseResult, xml: string, now: int, marshal: Marshal)
    requires GetFlowByCode(db, r.flowId).Some? && r.flowVersion <= GetFlowByCode(db, r.flowId).value.version
    ensures DeploySpec(db, faults, Ok(r), xml, now, marshal) == Outcome(Ok(GetFlowByCode(db, r.flowId).value.recordId), db)
  {
  }

  /**
   * Otherwise Deploy makes one CreateFlow call: on success the new main
   * flow, with the parsed code, name, version and status, and all its
   * record groups are appended and its id is returned; on failure no table
   * changes.
   */
  lemma DeployWritesOnce(db: Db, faults: nat -> DbFault, r: ParseResult, xml: string, now: int, marshal: Marshal)
    requires !(GetFlowByCode(db, r.flowId).Some? && r.flowVersion <= GetFlowByCode(db, r.flowId).value.version)
    ensures var o := DeploySpec(db, faults, Ok(r), xml, now, marshal);
            var flow := Transitions.DefaultFlag(NewFlow(Text.Uuid(db.uuidNext), r, xml, now));
            var acc := ParseOperating(NewFlow(Text.Uuid(db.uuidNext), r, xml, now), r.nodes, db.uuidNext + 1, marshal);
            var nodes := acc.nodes.(nodeGroup := LinkFrom(acc.nodes.nodeGroup, acc.forms.formGroup, r.nodes, 0));
            && flow.code == r.flowId && flow.name == r.flowName && flow.version == r.flowVersion
            && flow.status == r.flowStatus && flow.flag == 1 && flow.deleted == 0
            && (o.result.Ok? ==> o.result.value == flow.recordId
                                 && o.db == Tick(TableLemmas.WithDeployment(db.(uuidNext := acc.next), flow, nodes, acc.forms)))
            && (o.result.Err? ==> o.db == Tick(db.(uuidNext := acc.next)))
  {
    DeployReachesWrite(db, faults, r, xml, now, marshal);
    WriteNewFlowOutcome(db, faults, r, xml, now, marshal);
  }

  /** The writing half of Deploy: one CreateFlow of the new flow and every record group, all or nothing. */
  lemma WriteNewFlowOutcome(db: Db, faults: nat -> DbFault, r: ParseResult, xml: string, now: int, marshal: Marshal)
    ensures var o := WriteNewFlow(db, faults, r, xml, now, marshal);
            var flow := Transitions.DefaultFlag(NewFlow(Text.Uuid(db.uuidNext), r, xml, now));
            var acc := ParseOperating(NewFlow(Text.Uuid(db.uuidNext), r, xml, now), r.nodes, db.uuidNext + 1, marshal);
            var nodes := acc.nodes.(nodeGroup := LinkFrom(acc.nodes.nodeGroup, acc.forms.formGroup, r.nodes, 0));
            && flow.code == r.flowId && flow.name == r.flowName && flow.version == r.flowVersion
            && flow.status == r.flowStatus && flow.flag == 1 && flow.deleted == 0
            && (o.result.Ok? ==> o.result.value == flow.recordId
                                 && o.db == Tick(TableLemmas.WithDeployment(db.(uuidNext := acc.next), flow, nodes, acc.forms)))
            && (o.result.Err? ==> o.db == Tick(db.(uuidNext := acc.next)))
  {
    var flow0 := NewFlow(Text.Uuid(db.uuidNext), r, xml, now);
    var acc := ParseOperating(flow0, r.nodes, db.uuidNext + 1, marshal);
    var nodes := acc.nodes.(nodeGroup := LinkFrom(acc.nodes.nodeGroup, acc.forms.formGroup, r.nodes, 0));
    CommitFlowOutcome(db.(uuidNext := acc.next), faults, Transitions.DefaultFlag(flow0), nodes, acc.forms);
  }

  /** Deploy's one CreateFlow call: on success the new flow's id and every record group written, otherwise nothing. */
  lemma CommitFlowOutcome(db: Db, faults: nat -> DbFault, flow: Flow, nodes: NodeOperating, forms: FormOperating)
    ensures var c := CommitFlow(db, faults, flow, nodes, forms);
            && (c.result.Ok? ==> c.result.value == flow.recordId && c.db == Tick(TableLemmas.WithDeployment(db, flow, nodes, forms)))
            && (c.result.Err? ==> c.db == Tick(db))
  {
    TableLemmas.CreateFlowAllOrNothing(db, faults, flow, nodes, forms);
  }

  /** With no reusable flow, Deploy is its writing half. */
  lemma DeployReachesWrite(db: Db, faults: nat -> DbFault, r: ParseResult, xml: string, now: int, marshal: Marshal)
    requires !(GetFlowByCode(db, r.flowId).Some? && r.flowVersion <= GetFlowByCode(db, r.flowId).value.version)
    ensures DeploySpec(db, faults, Ok(r), xml, now, marshal) == WriteNewFlow(db, faults, r, xml, now, marshal)
  {
  }

  /**
   * Deploying the same enabled definition twice: the second deploy finds
   * the flow the first one wrote (or reused), returns its id and writes
   * nothing.
   */
  lemma DeployIdempotent(db: Db, faults: nat -> DbFault, r: ParseResult, xml: string, now: int, marshal: Marshal,
                         xml': string, now': int)
    requires r.flowStatus == FlowEnabled
    ensures var o := DeploySpec(db, faults, Ok(r), xml, now, marshal);
            o.result.Ok? ==> DeploySpec(o.db, faults, Ok(r), xml', now', marshal) == Outcome(Ok(o.result.value), o.db)
  {
    var prior := GetFlowByCode(db, r.flowId);
    var o := DeploySpec(db, faults, Ok(r), xml, now, marshal);
    if o.result.Ok? && !(prior.Some? && r.flowVersion <= prior.value.version) {
      DeployWritesOnce(db, faults, r, xml, now, marshal);
      var flow := Transitions.DefaultFlag(NewFlow(Text.Uuid(db.uuidNext), r, xml, now));
      assert o.db.flows == db.flows + [flow];
      assert flow in o.db.flows && ActiveWithCode(flow, r.flowId);
      var g := GetFlowByCode(o.db, r.flowId);
      assert g.Some? && g.value.version >= r.flowVersion;
      if g.value in db.flows {
        assert false;
      }
      assert g.value == flow;
    }
  }
}
