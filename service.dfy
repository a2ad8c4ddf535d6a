/**
 * The flow service (service/flow.go): the calls the router and the engine
 * make, each a method over the repository's store, proved to do what the
 * corresponding function of `Transitions` describes. The pass-through
 * queries of the service are the `Tables` query functions applied to
 * `repo.db`.
 */
module Service {
  import opened Wrappers
  import opened Model
  import opened Operating
  import Text
  import opened Tables
  import Transitions
  import Repository

  class FlowService {
    const repo: Repository.Store

    constructor (repo: Repository.Store)
      ensures this.repo == repo
    {
      this.repo := repo;
    }

    /** CreateFlow: a flow with flag 0 is stored as a main flow, then the repository write runs. */
    method CreateFlow(flow: Flow, nodeOps: NodeOperating, formOps: FormOperating) returns (err: Option<Error>)
      modifies repo
      ensures var o := Tables.CreateFlow(old(repo.db), repo.faults, Transitions.DefaultFlag(flow), nodeOps, formOps);
              repo.db == o.db && err == o.result.Failure()
    {
      var stored := flow;
      if stored.flag == 0 {
        stored := stored.(flag := 1);
      }
      err := repo.CreateFlow(stored, nodeOps, formOps);
    }

    /** LaunchFlowInstance: a running flow instance with its first pending node instance. */
    method LaunchFlowInstance(flowCode: string, nodeCode: string, launcher: string, input: string, now: int)
      returns (r: Result<Option<NodeInstance>>)
      modifies repo
      ensures var o := Transitions.LaunchFlowInstance(old(repo.db), repo.faults, flowCode, nodeCode, launcher, input, now);
              repo.db == o.db && r == o.result
    {
      var flow := GetFlowByCode(repo.db, flowCode);
      if flow.None? {
        return Ok(None);
      }
      var node := GetNodeByCode(repo.db, flow.value.recordId, nodeCode);
      if node.None? {
        return Ok(None);
      }
      ghost var db0 := repo.db;
      var flowInstanceId := repo.NewUuid();
      var fi := Transitions.RunningInstance(flowInstanceId, flow.value.recordId, launcher, now);
      var nodeInstanceId := repo.NewUuid();
      var ni := Transitions.PendingInstance(nodeInstanceId, flowInstanceId, node.value.recordId, input, now);
      assert repo.db == db0.(uuidNext := db0.uuidNext + 2);
      var err := repo.CreateFlowInstance(fi, [ni]);
      if err.Some? {
        return Err(err.value);
      }
      return Ok(Some(ni));
    }

    /** DoneNodeInstance: completes a pending node instance; absent or completed ones are rejected. */
    method DoneNodeInstance(nodeInstanceId: string, processor: string, outData: string, now: int)
      returns (err: Option<Error>)
      modifies repo
      ensures var o := Transitions.DoneNodeInstance(old(repo.db), repo.faults, nodeInstanceId, processor, outData, now);
              repo.db == o.db && err == o.result.Failure()
    {
      var ni := GetNodeInstance(repo.db, nodeInstanceId);
      if ni.None? || ni.value.status == NodeDone {
        return Some(InvalidNodeInstance);
      }
      err := repo.CompleteNodeInstance(nodeInstanceId, processor, outData, now);
    }

    /** DoneFlowInstance: the flow instance's status becomes 9 (completed). */
    method DoneFlowInstance(flowInstanceId: string) returns (err: Option<Error>)
      modifies repo
      ensures var o := Tables.UpdateFlowInstanceStatus(old(repo.db), repo.faults, flowInstanceId, InstanceCompleted);
              repo.db == o.db && err == o.result.Failure()
    {
      err := repo.UpdateFlowInstanceStatus(flowInstanceId, InstanceCompleted);
    }

    /** StopFlowInstance: writes the same status as DoneFlowInstance, 9, and not 3 (stopped). */
    method StopFlowInstance(flowInstanceId: string) returns (err: Option<Error>)
      modifies repo
      ensures var o := Tables.UpdateFlowInstanceStatus(old(repo.db), repo.faults, flowInstanceId, InstanceCompleted);
              repo.db == o.db && err == o.result.Failure()
    {
      err := repo.UpdateFlowInstanceStatus(flowInstanceId, InstanceCompleted);
    }

    /**
     * CreateNodeInstance: a pending instance and one candidate row per
     * identifier, built in a loop; the instance's record id is returned.
     */
    method CreateNodeInstance(flowInstanceId: string, nodeId: string, input: string, cands: seq<string>, now: int)
      returns (r: Result<string>)
      modifies repo
      ensures var o := Transitions.CreateNodeInstance(old(repo.db), repo.faults, flowInstanceId, nodeId, input, cands, now);
              repo.db == o.db && r == o.result
    {
      ghost var first := repo.db.uuidNext + 1;
      var id := repo.NewUuid();
      var ni := Transitions.PendingInstance(id, flowInstanceId, nodeId, input, now);
      var nodeCandidates: seq<NodeCandidate> := [];
      for i := 0 to |cands|
        invariant repo.db == old(repo.db).(uuidNext := first + i)
        invariant nodeCandidates == Transitions.NewCandidates(id, cands[..i], first, now)
      {
        var candidateId := repo.NewUuid();
        nodeCandidates := nodeCandidates + [NodeCandidate(candidateId, id, cands[i], now, 0)];
        assert cands[..i + 1] == cands[..i] + [cands[i]];
      }
      assert cands[..|cands|] == cands;
      var err := repo.CreateNodeInstance(ni, nodeCandidates);
      if err.Some? {
        return Err(err.value);
      }
      return Ok(id);
    }

    /** GetNodeProperty: folds the node's live properties into a name-to-value map. */
    method GetNodeProperty(nodeId: string) returns (data: map<string, string>)
      ensures data == Transitions.PropertyMap(QueryNodeProperty(repo.db, nodeId))
    {
      var items := QueryNodeProperty(repo.db, nodeId);
      data := map[];
      for i := 0 to |items|
        invariant data == Transitions.PropertyMap(items[..i])
      {
        assert items[..i + 1][..i] == items[..i];
        data := data[items[i].name := items[i].value];
      }
      assert items[..|items|] == items;
    }

    /** CreateNodeTiming: the item is inserted with its id reset to 0. */
    method CreateNodeTiming(item: NodeTiming) returns (err: Option<Error>)
      modifies repo
      ensures var o := Tables.InsertNodeTiming(old(repo.db), repo.faults, Transitions.TimingRow(item));
              repo.db == o.db && err == o.result.Failure()
    {
      var row := item.(id := 0);
      err := repo.CreateNodeTiming(row);
    }
  }
}
