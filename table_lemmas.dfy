/**
 * Properties of the store semantics: CreateFlow writes exactly the flow and
 * its groups or nothing, the rollback defect of CreateFlowInstance and
 * CreateNodeInstance, the DeleteFlow cascade and the QueryTodo filters.
 */
module TableLemmas {
  import opened Wrappers
  import opened Model
  import opened Operating
  import opened Tables

  // ---------------------------------------------------------------------
  // CreateFlow
  // ---------------------------------------------------------------------

  lemma {:induction false} InsertRowsAppend(db: Db, a: seq<Row>, b: seq<Row>)
    ensures InsertRows(db, a + b) == InsertRows(InsertRows(db, a), b)
    decreases |a|
  {
    if |a| == 0 {
      assert a + b == b;
    } else {
      assert (a + b)[0] == a[0];
      assert (a + b)[1..] == a[1..] + b;
      InsertRowsAppend(InsertRow(db, a[0]), a[1..], b);
    }
  }

  lemma {:induction false} InsertNodes(db: Db, xs: seq<Node>)
    ensures InsertRows(db, NodeRows(xs)) == db.(nodes := db.nodes + xs)
    decreases |xs|
  {
    if |xs| == 0 {
      assert db.nodes + xs == db.nodes;
    } else {
      assert NodeRows(xs)[1..] == NodeRows(xs[1..]);
      InsertNodes(db.(nodes := db.nodes + [xs[0]]), xs[1..]);
      assert db.nodes + [xs[0]] + xs[1..] == db.nodes + xs;
    }
  }

  lemma {:induction false} InsertRouters(db: Db, xs: seq<NodeRouter>)
    ensures InsertRows(db, RouterRows(xs)) == db.(routers := db.routers + xs)
    decreases |xs|
  {
    if |xs| == 0 {
      assert db.routers + xs == db.routers;
    } else {
      assert RouterRows(xs)[1..] == RouterRows(xs[1..]);
      InsertRouters(db.(routers := db.routers + [xs[0]]), xs[1..]);
      assert db.routers + [xs[0]] + xs[1..] == db.routers + xs;
    }
  }

  lemma {:induction false} InsertAssignments(db: Db, xs: seq<NodeAssignment>)
    ensures InsertRows(db, AssignmentRows(xs)) == db.(assignments := db.assignments + xs)
    decreases |xs|
  {
    if |xs| == 0 {
      assert db.assignments + xs == db.assignments;
    } else {
      assert AssignmentRows(xs)[1..] == AssignmentRows(xs[1..]);
      InsertAssignments(db.(assignments := db.assignments + [xs[0]]), xs[1..]);
      assert db.assignments + [xs[0]] + xs[1..] == db.assignments + xs;
    }
  }

  lemma {:induction false} InsertProperties(db: Db, xs: seq<NodeProperty>)
    ensures InsertRows(db, PropertyRows(xs)) == db.(properties := db.properties + xs)
    decreases |xs|
  {
    if |xs| == 0 {
      assert db.properties + xs == db.properties;
    } else {
      assert PropertyRows(xs)[1..] == PropertyRows(xs[1..]);
      InsertProperties(db.(properties := db.properties + [xs[0]]), xs[1..]);
      assert db.properties + [xs[0]] + xs[1..] == db.properties + xs;
    }
  }

  lemma {:induction false} InsertForms(db: Db, xs: seq<Form>)
    ensures InsertRows(db, FormRows(xs)) == db.(forms := db.forms + xs)
    decreases |xs|
  {
    if |xs| == 0 {
      assert db.forms + xs == db.forms;
    } else {
      assert FormRows(xs)[1..] == FormRows(xs[1..]);
      InsertForms(db.(forms := db.forms + [xs[0]]), xs[1..]);
      assert db.forms + [xs[0]] + xs[1..] == db.forms + xs;
    }
  }

  lemma {:induction false} InsertFields(db: Db, xs: seq<FormField>)
    ensures InsertRows(db, FieldRows(xs)) == db.(fields := db.fields + xs)
    decreases |xs|
  {
    if |xs| == 0 {
      assert db.fields + xs == db.fields;
    } else {
      assert FieldRows(xs)[1..] == FieldRows(xs[1..]);
      InsertFields(db.(fields := db.fields + [xs[0]]), xs[1..]);
      assert db.fields + [xs[0]] + xs[1..] == db.fields + xs;
    }
  }

  lemma {:induction false} InsertOptions(db: Db, xs: seq<FieldOption>)
    ensures InsertRows(db, OptionRows(xs)) == db.(options := db.options + xs)
    decreases |xs|
  {
    if |xs| == 0 {
      assert db.options + xs == db.options;
    } else {
      assert OptionRows(xs)[1..] == OptionRows(xs[1..]);
      InsertOptions(db.(options := db.options + [xs[0]]), xs[1..]);
      assert db.options + [xs[0]] + xs[1..] == db.options + xs;
    }
  }

  lemma {:induction false} InsertFieldProperties(db: Db, xs: seq<FieldProperty>)
    ensures InsertRows(db, FieldPropertyRows(xs)) == db.(fieldProperties := db.fieldProperties + xs)
    decreases |xs|
  {
    if |xs| == 0 {
      assert db.fieldProperties + xs == db.fieldProperties;
    } else {
      assert FieldPropertyRows(xs)[1..] == FieldPropertyRows(xs[1..]);
      InsertFieldProperties(db.(fieldProperties := db.fieldProperties + [xs[0]]), xs[1..]);
      assert db.fieldProperties + [xs[0]] + xs[1..] == db.fieldProperties + xs;
    }
  }

  lemma {:induction false} InsertValidations(db: Db, xs: seq<FieldValidation>)
    ensures InsertRows(db, ValidationRows(xs)) == db.(validations := db.validations + xs)
    decreases |xs|
  {
    if |xs| == 0 {
      assert db.validations + xs == db.validations;
    } else {
      assert ValidationRows(xs)[1..] == ValidationRows(xs[1..]);
      InsertValidations(db.(validations := db.validations + [xs[0]]), xs[1..]);
      assert db.validations + [xs[0]] + xs[1..] == db.validations + xs;
    }
  }

  /** Inserting the flattened node groups appends each group to its own table. */
  lemma InsertNodeOperating(db: Db, ops: NodeOperating)
    ensures InsertRows(db, ops.Flattened())
            == db.(nodes := db.nodes + ops.nodeGroup, routers := db.routers + ops.routerGroup,
                   assignments := db.assignments + ops.assignmentGroup,
                   properties := db.properties + ops.propertyGroup)
  {
    var a, b, c, d := NodeRows(ops.nodeGroup), RouterRows(ops.routerGroup),
                      AssignmentRows(ops.assignmentGroup), PropertyRows(ops.propertyGroup);
    InsertRowsAppend(db, a + b + c, d);
    InsertRowsAppend(db, a + b, c);
    InsertRowsAppend(db, a, b);
    InsertNodes(db, ops.nodeGroup);
    var db1 := db.(nodes := db.nodes + ops.nodeGroup);
    InsertRouters(db1, ops.routerGroup);
    var db2 := db1.(routers := db.routers + ops.routerGroup);
    InsertAssignments(db2, ops.assignmentGroup);
    var db3 := db2.(assignments := db.assignments + ops.assignmentGroup);
    InsertProperties(db3, ops.propertyGroup);
  }

  /** Inserting the flattened form groups appends each group to its own table. */
  lemma InsertFormOperating(db: Db, ops: FormOperating)
    ensures InsertRows(db, ops.Flattened())
            == db.(forms := db.forms + ops.formGroup, fields := db.fields + ops.formFieldGroup,
                   options := db.options + ops.fieldOptionGroup,
                   fieldProperties := db.fieldProperties + ops.fieldPropertyGroup,
                   validations := db.validations + ops.fieldValidationGroup)
  {
    var a, b, c, d, e := FormRows(ops.formGroup), FieldRows(ops.formFieldGroup), OptionRows(ops.fieldOptionGroup),
                         FieldPropertyRows(ops.fieldPropertyGroup), ValidationRows(ops.fieldValidationGroup);
    InsertRowsAppend(db, a + b + c + d, e);
    InsertRowsAppend(db, a + b + c, d);
    InsertRowsAppend(db, a + b, c);
    InsertRowsAppend(db, a, b);
    InsertForms(db, ops.formGroup);
    var db1 := db.(forms := db.forms + ops.formGroup);
    InsertFields(db1, ops.formFieldGroup);
    var db2 := db1.(fields := db.fields + ops.formFieldGroup);
    InsertOptions(db2, ops.fieldOptionGroup);
    var db3 := db2.(options := db.options + ops.fieldOptionGroup);
    InsertFieldProperties(db3, ops.fieldPropertyGroup);
    var db4 := db3.(fieldProperties := db.fieldProperties + ops.fieldPropertyGroup);
    InsertValidations(db4, ops.fieldValidationGroup);
  }

  /** The snapshot after a committed CreateFlow: the flow and every group appended to its table. */
  function WithDeployment(db: Db, flow: Flow, nodes: NodeOperating, forms: FormOperating): Db {
    db.(flows := db.flows + [flow],
        nodes := db.nodes + nodes.nodeGroup,
        routers := db.routers + nodes.routerGroup,
        assignments := db.assignments + nodes.assignmentGroup,
        properties := db.properties + nodes.propertyGroup,
        forms := db.forms + forms.formGroup,
        fields := db.fields + forms.formFieldGroup,
        options := db.options + forms.fieldOptionGroup,
        fieldProperties := db.fieldProperties + forms.fieldPropertyGroup,
        validations := db.validations + forms.fieldValidationGroup)
  }

  /**
   * CreateFlow is all or nothing: on success the flow and every record group
   * are appended to their tables, in group order; on failure no table changes.
   */
  lemma CreateFlowAllOrNothing(db: Db, faults: nat -> DbFault, flow: Flow, nodes: NodeOperating, forms: FormOperating)
    ensures var o := CreateFlow(db, faults, flow, nodes, forms);
            && (o.result.Ok? ==> o.db == Tick(WithDeployment(db, flow, nodes, forms)))
            && (o.result.Err? ==> o.db == Tick(db))
            && (o.result.Ok? <==> Commits(faults(db.writes), CreateFlowSteps(nodes, forms)))
  {
    var o := CreateFlow(db, faults, flow, nodes, forms);
    if o.result.Ok? {
      var db0 := Tick(db).(flows := db.flows + [flow]);
      InsertRowsAppend(db0, nodes.Flattened(), forms.Flattened());
      InsertNodeOperating(db0, nodes);
      InsertFormOperating(InsertRows(db0, nodes.Flattened()), forms);
    }
  }

  // ---------------------------------------------------------------------
  // The rollback defect
  // ---------------------------------------------------------------------

  /**
   * As written, CreateFlowInstance reports success when the first insert
   * fails and the rollback succeeds, although nothing was written.
   */
  lemma CreateFlowInstanceAsWrittenHidesInsertFailure(db: Db, fi: FlowInstance, nis: seq<NodeInstance>)
    ensures var o := CreateFlowInstanceAsWritten(db, (_: nat) => StepFails(0, false), fi, nis);
            o.result.Ok? && o.db == Tick(db) && fi !in o.db.flowInstances[|db.flowInstances|..]
  {
  }

  /** As written, CreateNodeInstance reports success for a failed insert whose rollback succeeds. */
  lemma CreateNodeInstanceAsWrittenHidesInsertFailure(db: Db, ni: NodeInstance, cs: seq<NodeCandidate>)
    ensures var o := CreateNodeInstanceAsWritten(db, (_: nat) => StepFails(0, false), ni, cs);
            o.result.Ok? && o.db == Tick(db)
  {
  }

  /** The corrected CreateFlowInstance reports success exactly when it wrote its rows. */
  lemma CreateFlowInstanceReportsFailure(db: Db, faults: nat -> DbFault, fi: FlowInstance, nis: seq<NodeInstance>)
    ensures var o := CreateFlowInstance(db, faults, fi, nis);
            o.result.Ok? <==> o.db == Tick(db).(flowInstances := db.flowInstances + [fi],
                                                nodeInstances := db.nodeInstances + nis)
  {
    var o := CreateFlowInstance(db, faults, fi, nis);
    if o.result.Err? {
      assert |o.db.flowInstances| == |db.flowInstances|;
    }
  }

  // ---------------------------------------------------------------------
  // DeleteFlow
  // ---------------------------------------------------------------------

  /** DeleteFlow is all or nothing: when it fails no table changes. */
  lemma DeleteFlowAtomic(db: Db, faults: nat -> DbFault, flowId: string, now: int)
    ensures var o := DeleteFlow(db, faults, flowId, now);
            && (o.result.Err? ==> o.db == Tick(db))
            && (o.result.Ok? <==> Commits(faults(db.writes), 6))
  {
  }

  /**
   * After a committed DeleteFlow with a non-zero timestamp, neither the flow
   * nor any of its nodes or forms is live.
   */
  lemma DeleteFlowRemovesFlow(db: Db, faults: nat -> DbFault, flowId: string, now: int)
    requires now != 0
    ensures var o := DeleteFlow(db, faults, flowId, now);
            o.result.Ok? ==>
              && (forall f :: f in o.db.flows ==> !(f.recordId == flowId && f.deleted == 0))
              && (forall n :: n in o.db.nodes ==> !(n.flowId == flowId && n.deleted == 0))
              && (forall f :: f in o.db.forms ==> !(f.flowId == flowId && f.deleted == 0))
  {
    var o := DeleteFlow(db, faults, flowId, now);
    if o.result.Ok? {
      forall f | f in o.db.flows ensures !(f.recordId == flowId && f.deleted == 0) {
        var i :| 0 <= i < |o.db.flows| && o.db.flows[i] == f;
      }
      forall n | n in o.db.nodes ensures !(n.flowId == flowId && n.deleted == 0) {
        var i :| 0 <= i < |o.db.nodes| && o.db.nodes[i] == n;
      }
      forall f | f in o.db.forms ensures !(f.flowId == flowId && f.deleted == 0) {
        var i :| 0 <= i < |o.db.forms| && o.db.forms[i] == f;
      }
    }
  }

  /**
   * After a committed DeleteFlow with a non-zero timestamp, the nodes that
   * were live have no live routers, assignments or properties left.
   */
  lemma DeleteFlowRemovesNodeData(db: Db, faults: nat -> DbFault, flowId: string, now: int, id: string)
    requires now != 0
    requires id in LiveNodeIds(db, flowId)
    ensures var o := DeleteFlow(db, faults, flowId, now);
            o.result.Ok? ==>
              QueryNodeRouters(o.db, id) == [] && QueryNodeAssignments(o.db, id) == []
              && QueryNodeProperty(o.db, id) == []
  {
    var o := DeleteFlow(db, faults, flowId, now);
    if o.result.Ok? {
      forall x | x in o.db.routers ensures !(x.sourceNodeId == id && x.deleted == 0) {
        var i :| 0 <= i < |o.db.routers| && o.db.routers[i] == x;
      }
      forall x | x in o.db.assignments ensures !(x.nodeId == id && x.deleted == 0) {
        var i :| 0 <= i < |o.db.assignments| && o.db.assignments[i] == x;
      }
      forall x | x in o.db.properties ensures !(x.nodeId == id && x.deleted == 0) {
        var i :| 0 <= i < |o.db.properties| && o.db.properties[i] == x;
      }
    }
  }

  /**
   * A committed DeleteFlow touches only live rows of the flow, stamps each
   * with the one timestamp, and leaves form fields, options, field
   * properties, validations and instances alone.
   */
  lemma DeleteFlowTouchesOnlyLiveRows(db: Db, faults: nat -> DbFault, flowId: string, now: int)
    ensures var o := DeleteFlow(db, faults, flowId, now);
            o.result.Ok? ==>
              && |o.db.nodes| == |db.nodes|
              && (forall i :: 0 <= i < |db.nodes| && db.nodes[i].deleted != 0 ==> o.db.nodes[i] == db.nodes[i])
              && (forall i :: 0 <= i < |db.nodes| && db.nodes[i].flowId != flowId ==> o.db.nodes[i] == db.nodes[i])
              && (forall i :: 0 <= i < |db.nodes| && o.db.nodes[i] != db.nodes[i] ==> o.db.nodes[i].deleted == now)
              && |o.db.flows| == |db.flows|
              && (forall i :: 0 <= i < |db.flows| && db.flows[i].recordId != flowId ==> o.db.flows[i] == db.flows[i])
              && (forall i :: 0 <= i < |db.flows| && o.db.flows[i] != db.flows[i] ==> o.db.flows[i].deleted == now)
              && |o.db.forms| == |db.forms|
              && (forall i :: 0 <= i < |db.forms| && db.forms[i].flowId != flowId ==> o.db.forms[i] == db.forms[i])
              && o.db.fields == db.fields && o.db.options == db.options
              && o.db.fieldProperties == db.fieldProperties && o.db.validations == db.validations
              && o.db.flowInstances == db.flowInstances && o.db.nodeInstances == db.nodeInstances
  {
  }

  // ---------------------------------------------------------------------
  // QueryTodo
  // ---------------------------------------------------------------------

  lemma {:induction false} FirstIndexAgrees<T>(s: seq<T>, p: T -> bool, q: T -> bool)
    requires forall x :: x in s ==> p(x) == q(x)
    ensures FirstIndex(s, p) == FirstIndex(s, q)
    decreases |s|
  {
    if |s| > 0 {
      assert s[0] in s;
      assert forall x :: x in s[1..] ==> x in s;
      FirstIndexAgrees(s[1..], p, q);
    }
  }

  lemma {:induction false} DescIndicesAgree(n: nat, p: nat -> bool, q: nat -> bool)
    requires forall i: nat :: i < n ==> p(i) == q(i)
    ensures DescIndices(n, p) == DescIndices(n, q)
  {
    if n > 0 {
      DescIndicesAgree(n - 1, p, q);
    }
  }

  lemma {:induction false} TodoRowsAgree(db: Db, sel: seq<nat>, typeCode: string, fc1: string, fc2: string, userId: string)
    requires typeCode != ""
    requires forall k :: 0 <= k < |sel| ==> sel[k] < |db.nodeInstances|
    requires forall k :: 0 <= k < |sel| ==> TodoQualifies(db, sel[k], typeCode, fc1, userId)
    requires forall k :: 0 <= k < |sel| ==> TodoQualifies(db, sel[k], typeCode, fc2, userId)
    ensures TodoRows(db, sel, typeCode, fc1, userId) == TodoRows(db, sel, typeCode, fc2, userId)
    decreases |sel|
  {
    if |sel| > 0 {
      var ni := db.nodeInstances[sel[0]];
      FirstIndexAgrees(db.flowInstances,
        (fi: FlowInstance) => fi.recordId == ni.flowInstanceId && fi.deleted == ni.deleted
                              && fi.status == InstanceRunning && InScope(db, fi.flowId, typeCode, fc1),
        (fi: FlowInstance) => fi.recordId == ni.flowInstanceId && fi.deleted == ni.deleted
                              && fi.status == InstanceRunning && InScope(db, fi.flowId, typeCode, fc2));
      TodoRowsAgree(db, sel[1..], typeCode, fc1, fc2, userId);
    }
  }

  /** A type-code filter takes precedence: the flow code is then ignored. */
  lemma TypeCodeTakesPrecedence(db: Db, typeCode: string, fc1: string, fc2: string, userId: string, limit: int)
    requires typeCode != ""
    ensures QueryTodo(db, typeCode, fc1, userId, limit) == QueryTodo(db, typeCode, fc2, userId, limit)
  {
    forall ni: NodeInstance {
      FirstIndexAgrees(db.flowInstances,
        (fi: FlowInstance) => fi.recordId == ni.flowInstanceId && fi.deleted == ni.deleted
                              && fi.status == InstanceRunning && InScope(db, fi.flowId, typeCode, fc1),
        (fi: FlowInstance) => fi.recordId == ni.flowInstanceId && fi.deleted == ni.deleted
                              && fi.status == InstanceRunning && InScope(db, fi.flowId, typeCode, fc2));
    }
    assert forall i: nat :: TodoQualifies(db, i, typeCode, fc1, userId) == TodoQualifies(db, i, typeCode, fc2, userId);
    DescIndicesAgree(|db.nodeInstances|,
      (i: nat) => TodoQualifies(db, i, typeCode, fc1, userId),
      (i: nat) => TodoQualifies(db, i, typeCode, fc2, userId));
    if limit >= 0 {
      var idx := TodoIndices(db, typeCode, fc1, userId);
      var sel := if limit < |idx| then idx[..limit] else idx;
      assert forall k :: 0 <= k < |sel| ==> sel[k] == idx[k];
      TodoRowsAgree(db, sel, typeCode, fc1, fc2, userId);
    }
  }

  /**
   * QueryTodo returns the user's to-dos newest first: its k-th row is the
   * k-th to-do in descending id order, and it returns min(limit, count) rows.
   */
  lemma QueryTodoNewestFirst(db: Db, typeCode: string, flowCode: string, userId: string, limit: int)
    ensures var r := QueryTodo(db, typeCode, flowCode, userId, limit);
            var idx := TodoIndices(db, typeCode, flowCode, userId);
            r.Ok? ==>
              && |r.value| == (if limit < |idx| then limit else |idx|)
              && forall k :: 0 <= k < |r.value| ==> r.value[k].recordId == db.nodeInstances[idx[k]].recordId
  {
    if limit >= 0 {
      var idx := TodoIndices(db, typeCode, flowCode, userId);
      var sel := if limit < |idx| then idx[..limit] else idx;
      assert forall k :: 0 <= k < |sel| ==> sel[k] == idx[k];
    }
  }
}
