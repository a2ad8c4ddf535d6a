/**
 * The repository (repository/flow.go): a store object whose tables the
 * write operations change statement by statement, inside a transaction
 * that is rolled back when a statement or the commit fails. Each write is
 * proved to leave the store in the state the corresponding function of
 * `Tables` describes, and to report its error exactly when that function
 * does.
 */
module Repository {
  import opened Wrappers
  import opened Model
  import opened Operating
  import Text
  import opened Tables
  import TableLemmas

  class Store {
    /** Every table, the UUID supply and the count of write operations attempted. */
    var db: Db
    /** What the database does to each write operation, by its number. */
    const faults: nat -> DbFault

    constructor (faults: nat -> DbFault)
      ensures db == EmptyDb() && this.faults == faults
    {
      db := EmptyDb();
      this.faults := faults;
    }

    /** util.UUID: the next identifier of the supply. */
    method NewUuid() returns (id: string)
      modifies this
      ensures id == Text.Uuid(old(db.uuidNext))
      ensures db == old(db).(uuidNext := old(db.uuidNext) + 1)
    {
      id := Text.Uuid(db.uuidNext);
      db := db.(uuidNext := db.uuidNext + 1);
    }

    /** Rollback: every table returns to the snapshot taken at Begin. */
    method Rollback(saved: Db)
      modifies this
      ensures db == saved.(uuidNext := old(db.uuidNext), writes := old(db.writes))
    {
      db := saved.(uuidNext := db.uuidNext, writes := db.writes);
    }

    /** Inserts one row of a record group into its table. */
    method InsertRow(row: Row)
      modifies this
      ensures db == Tables.InsertRow(old(db), row)
    {
      match row
      case NodeRow(x) => db := db.(nodes := db.nodes + [x]);
      case RouterRow(x) => db := db.(routers := db.routers + [x]);
      case AssignmentRow(x) => db := db.(assignments := db.assignments + [x]);
      case PropertyRow(x) => db := db.(properties := db.properties + [x]);
      case FormRow(x) => db := db.(forms := db.forms + [x]);
      case FieldRow(x) => db := db.(fields := db.fields + [x]);
      case OptionRow(x) => db := db.(options := db.options + [x]);
      case FieldPropertyRow(x) => db := db.(fieldProperties := db.fieldProperties + [x]);
      case ValidationRow(x) => db := db.(validations := db.validations + [x]);
    }

    /** One multi-row insert statement (tran.Insert(list...)). */
    method InsertRows(rows: seq<Row>)
      modifies this
      ensures db == Tables.InsertRows(old(db), rows)
    {
      for i := 0 to |rows|
        invariant Tables.InsertRows(db, rows[i..]) == Tables.InsertRows(old(db), rows)
      {
        assert rows[i..][0] == rows[i] && rows[i..][1..] == rows[i + 1..];
        InsertRow(rows[i]);
      }
    }

    /**
     * One group-insert statement of a transaction: it fails, and the
     * transaction is rolled back to `saved`, when the fault strikes at `step`.
     */
    method InsertStatement(saved: Db, fault: DbFault, step: nat, rows: seq<Row>) returns (failed: bool)
      modifies this
      ensures failed <==> fault.StepFails? && fault.step == step
      ensures failed ==> db == saved.(uuidNext := old(db.uuidNext), writes := old(db.writes))
      ensures !failed ==> db == Tables.InsertRows(old(db), rows)
    {
      failed := fault.StepFails? && fault.step == step;
      if failed {
        Rollback(saved);
      } else {
        InsertRows(rows);
      }
    }

    /**
     * CreateFlow: begin; insert the flow; insert the node groups when there
     * are any; insert the form groups when there are any; commit. A failed
     * statement or commit rolls everything back.
     */
    method CreateFlow(flow: Flow, nodeOps: NodeOperating, formOps: FormOperating) returns (err: Option<Error>)
      modifies this
      ensures var o := Tables.CreateFlow(old(db), faults, flow, nodeOps, formOps);
              db == o.db && err == o.result.Failure()
    {
      var saved := db;
      var fault := faults(db.writes);
      db := Tick(db);
      if fault.BeginFails? {
        return Some(DbFailed("CreateFlow"));
      }
      if fault.StepFails? && fault.step == 0 {
        Rollback(saved);
        return Some(DbFailed("CreateFlow"));
      }
      db := db.(flows := db.flows + [flow]);
      ghost var start := db;
      var nodeRows := NodeGroupRows(nodeOps);
      var formRows := FormGroupRows(formOps);
      var step: nat := 1;
      if |nodeRows| > 0 {
        var failed := InsertStatement(saved, fault, step, nodeRows);
        if failed {
          return Some(DbFailed("CreateFlow"));
        }
        step := step + 1;
      }
      ghost var afterNodes := db;
      if |formRows| > 0 {
        var failed := InsertStatement(saved, fault, step, formRows);
        if failed {
          return Some(DbFailed("CreateFlow"));
        }
        step := step + 1;
      }
      if fault.CommitFails? {
        Rollback(saved);
        return Some(DbFailed("CreateFlow"));
      }
      CreateFlowCommitted(saved, start, afterNodes, db, flow, nodeOps, formOps, nodeRows, formRows);
      err := None;
    }

    /**
     * CreateFlowInstance: the flow instance, then each node instance, in one
     * transaction; every failure is reported.
     */
    method CreateFlowInstance(fi: FlowInstance, nis: seq<NodeInstance>) returns (err: Option<Error>)
      modifies this
      ensures var o := Tables.CreateFlowInstance(old(db), faults, fi, nis);
              db == o.db && err == o.result.Failure()
    {
      var saved := db;
      var fault := faults(db.writes);
      db := Tick(db);
      if fault.BeginFails? {
        return Some(DbFailed("CreateFlowInstance"));
      }
      if fault.StepFails? && fault.step == 0 {
        Rollback(saved);
        return Some(DbFailed("CreateFlowInstance"));
      }
      db := db.(flowInstances := db.flowInstances + [fi]);
      for i := 0 to |nis|
        invariant db == Tick(saved).(flowInstances := saved.flowInstances + [fi],
                                          nodeInstances := saved.nodeInstances + nis[..i])
        invariant fault.StepFails? ==> fault.step > i
      {
        if fault.StepFails? && fault.step == i + 1 {
          Rollback(saved);
          return Some(DbFailed("CreateFlowInstance"));
        }
        assert nis[..i + 1] == nis[..i] + [nis[i]];
        db := db.(nodeInstances := db.nodeInstances + [nis[i]]);
      }
      if fault.CommitFails? {
        Rollback(saved);
        return Some(DbFailed("CreateFlowInstance"));
      }
      assert nis[..|nis|] == nis;
      err := None;
    }

    /**
     * CreateNodeInstance: the node instance, then each candidate, in one
     * transaction; every failure is reported.
     */
    method CreateNodeInstance(ni: NodeInstance, cs: seq<NodeCandidate>) returns (err: Option<Error>)
      modifies this
      ensures var o := Tables.CreateNodeInstance(old(db), faults, ni, cs);
              db == o.db && err == o.result.Failure()
    {
      var saved := db;
      var fault := faults(db.writes);
      db := Tick(db);
      if fault.BeginFails? {
        return Some(DbFailed("CreateNodeInstance"));
      }
      if fault.StepFails? && fault.step == 0 {
        Rollback(saved);
        return Some(DbFailed("CreateNodeInstance"));
      }
      db := db.(nodeInstances := db.nodeInstances + [ni]);
      for i := 0 to |cs|
        invariant db == Tick(saved).(nodeInstances := saved.nodeInstances + [ni],
                                          candidates := saved.candidates + cs[..i])
        invariant fault.StepFails? ==> fault.step > i
      {
        if fault.StepFails? && fault.step == i + 1 {
          Rollback(saved);
          return Some(DbFailed("CreateNodeInstance"));
        }
        assert cs[..i + 1] == cs[..i] + [cs[i]];
        db := db.(candidates := db.candidates + [cs[i]]);
      }
      if fault.CommitFails? {
        Rollback(saved);
        return Some(DbFailed("CreateNodeInstance"));
      }
      assert cs[..|cs|] == cs;
      err := None;
    }

    /** UpdateNodeInstance with the completion fields, keyed by record id. */
    method CompleteNodeInstance(recordId: string, processor: string, outData: string, now: int)
      returns (err: Option<Error>)
      modifies this
      ensures var o := Tables.CompleteNodeInstance(old(db), faults, recordId, processor, outData, now);
              db == o.db && err == o.result.Failure()
    {
      var fault := faults(db.writes);
      db := Tick(db);
      if !fault.NoFault? {
        return Some(DbFailed("UpdateNodeInstance"));
      }
      db := db.(nodeInstances := CompleteRows(db.nodeInstances, recordId, processor, outData, now));
      err := None;
    }

    /** UpdateFlowInstance with a new status, keyed by record id. */
    method UpdateFlowInstanceStatus(recordId: string, status: int) returns (err: Option<Error>)
      modifies this
      ensures var o := Tables.UpdateFlowInstanceStatus(old(db), faults, recordId, status);
              db == o.db && err == o.result.Failure()
    {
      var fault := faults(db.writes);
      db := Tick(db);
      if !fault.NoFault? {
        return Some(DbFailed("UpdateFlowInstance"));
      }
      db := db.(flowInstances := StatusRows(db.flowInstances, recordId, status));
      err := None;
    }

    /** CreateNodeTiming: one insert. */
    method CreateNodeTiming(item: NodeTiming) returns (err: Option<Error>)
      modifies this
      ensures var o := Tables.InsertNodeTiming(old(db), faults, item);
              db == o.db && err == o.result.Failure()
    {
      var fault := faults(db.writes);
      db := Tick(db);
      if !fault.NoFault? {
        return Some(DbFailed("CreateNodeTiming"));
      }
      db := db.(timings := db.timings + [item]);
      err := None;
    }

    /**
     * DeleteFlow: six soft-delete statements in one transaction, each
     * stamping only rows that are still live.
     */
    method DeleteFlow(flowId: string, now: int) returns (err: Option<Error>)
      modifies this
      ensures var o := Tables.DeleteFlow(old(db), faults, flowId, now);
              db == o.db && err == o.result.Failure()
    {
      var saved := db;
      var fault := faults(db.writes);
      db := Tick(db);
      if fault.BeginFails? {
        return Some(DbFailed("DeleteFlow"));
      }
      var nodeIds := LiveNodeIds(saved, flowId);
      if fault.StepFails? && fault.step == 0 {
        Rollback(saved);
        return Some(DbFailed("DeleteFlow"));
      }
      db := db.(flows := DeleteFlowRows(db.flows, flowId, now));
      if fault.StepFails? && fault.step == 1 {
        Rollback(saved);
        return Some(DbFailed("DeleteFlow"));
      }
      db := db.(routers := DeleteRouterRows(db.routers, LiveNodeIds(db, flowId), now));
      if fault.StepFails? && fault.step == 2 {
        Rollback(saved);
        return Some(DbFailed("DeleteFlow"));
      }
      db := db.(assignments := DeleteAssignmentRows(db.assignments, LiveNodeIds(db, flowId), now));
      if fault.StepFails? && fault.step == 3 {
        Rollback(saved);
        return Some(DbFailed("DeleteFlow"));
      }
      db := db.(properties := DeletePropertyRows(db.properties, LiveNodeIds(db, flowId), now));
      if fault.StepFails? && fault.step == 4 {
        Rollback(saved);
        return Some(DbFailed("DeleteFlow"));
      }
      db := db.(nodes := DeleteNodeRows(db.nodes, flowId, now));
      if fault.StepFails? && fault.step == 5 {
        Rollback(saved);
        return Some(DbFailed("DeleteFlow"));
      }
      db := db.(forms := DeleteFormRows(db.forms, flowId, now));
      if fault.CommitFails? {
        Rollback(saved);
        return Some(DbFailed("DeleteFlow"));
      }
      err := None;
    }

    /**
     * QueryDoneIDs: the record ids of the live flow instances of main flows
     * with this code in which the user completed a node instance.
     */
    method QueryDoneIDs(flowCode: string, userId: string) returns (ids: seq<string>)
      ensures |ids| == |DoneInstances(db, flowCode, userId)|
      ensures forall k :: 0 <= k < |ids| ==> ids[k] == DoneInstances(db, flowCode, userId)[k].recordId
      ensures forall fi :: (fi in db.flowInstances && fi.deleted == 0 && IsMainFlowWithCode(db, fi.flowId, flowCode)
                            && ProcessedBy(db, fi.recordId, userId)) ==> fi.recordId in ids
    {
      var items := DoneInstances(db, flowCode, userId);
      ids := [];
      for i := 0 to |items|
        invariant |ids| == i
        invariant forall k :: 0 <= k < i ==> ids[k] == items[k].recordId
      {
        ids := ids + [items[i].recordId];
      }
      forall fi | fi in db.flowInstances && fi.deleted == 0 && IsMainFlowWithCode(db, fi.flowId, flowCode)
                  && ProcessedBy(db, fi.recordId, userId)
        ensures fi.recordId in ids
      {
        var k :| 0 <= k < |items| && items[k] == fi;
        assert ids[k] == fi.recordId;
      }
    }
  }

  /** The rows of a node record group, in insertion order (NodeOperating.All). */
  method NodeGroupRows(ops: NodeOperating) returns (rows: seq<Row>)
    ensures rows == ops.Flattened()
  {
    rows := ops.All();
  }

  /** The rows of a form record group, in insertion order (FormOperating.All). */
  method FormGroupRows(ops: FormOperating) returns (rows: seq<Row>)
    ensures rows == ops.Flattened()
  {
    rows := ops.All();
  }

  /** The snapshot a committed CreateFlow leaves, assembled from its statements. */
  lemma CreateFlowCommitted(saved: Db, start: Db, afterNodes: Db, final: Db, flow: Flow,
                            nodeOps: NodeOperating, formOps: FormOperating, nodeRows: seq<Row>, formRows: seq<Row>)
    requires start == Tick(saved).(flows := saved.flows + [flow])
    requires nodeRows == nodeOps.Flattened() && formRows == formOps.Flattened()
    requires afterNodes == (if |nodeRows| > 0 then Tables.InsertRows(start, nodeRows) else start)
    requires final == (if |formRows| > 0 then Tables.InsertRows(afterNodes, formRows) else afterNodes)
    ensures final == Tables.InsertRows(start, nodeRows + formRows)
  {
    TableLemmas.InsertRowsAppend(start, nodeRows, formRows);
    if |nodeRows| == 0 {
      assert nodeRows + formRows == formRows;
    }
    if |formRows| == 0 {
      assert nodeRows + formRows == nodeRows;
    }
  }
}
