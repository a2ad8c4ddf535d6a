/**
 * The state transitions of the flow service (service/flow.go) as functions
 * of a store snapshot: what each service call leaves in the store and what
 * it reports. UUIDs come from the snapshot's supply and the clock is the
 * parameter `now`.
 */
module Transitions {
  import opened Wrappers
  import opened Model
  import opened Text
  import opened Tables

  /** CreateFlow's defaulting: a flow with flag 0 becomes a main flow (flag 1). */
  function DefaultFlag(f: Flow): (r: Flow)
    ensures r.flag == (if f.flag == 0 then 1 else f.flag)
    ensures r.(flag := f.flag) == f
  {
    if f.flag == 0 then f.(flag := 1) else f
  }

  /** The row CreateNodeTiming inserts: the item with its autoincrement id cleared. */
  function TimingRow(item: NodeTiming): (r: NodeTiming)
    ensures r.id == 0
    ensures r.(id := item.id) == item
  {
    item.(id := 0)
  }

  /**
   * DoneNodeInstance: an absent or already completed instance is rejected
   * without touching the store; otherwise the completion update runs.
   */
  function DoneNodeInstance(db: Db, faults: nat -> DbFault, recordId: string, processor: string,
                            outData: string, now: int): (o: Outcome<()>)
    ensures (GetNodeInstance(db, recordId).None? || GetNodeInstance(db, recordId).value.status == NodeDone)
            <==> o == Outcome(Err(InvalidNodeInstance), db)
    ensures o.result.Ok? ==> o.db == Tick(db).(nodeInstances :=
              CompleteRows(db.nodeInstances, recordId, processor, outData, now))
  {
    match GetNodeInstance(db, recordId)
    case None => Outcome(Err(InvalidNodeInstance), db)
    case Some(ni) =>
      if ni.status == NodeDone then Outcome(Err(InvalidNodeInstance), db)
      else CompleteNodeInstance(db, faults, recordId, processor, outData, now)
  }

  /**
   * A completed instance is found again by GetNodeInstance, now carrying
   * the processor, the output and status 2.
   */
  lemma DoneNodeInstanceCompletes(db: Db, faults: nat -> DbFault, recordId: string, processor: string,
                                  outData: string, now: int)
    ensures var o := DoneNodeInstance(db, faults, recordId, processor, outData, now);
            o.result.Ok? ==>
              && GetNodeInstance(db, recordId).Some?
              && GetNodeInstance(o.db, recordId) ==
                   Some(Completed(GetNodeInstance(db, recordId).value, processor, outData, now))
  {
    var o := DoneNodeInstance(db, faults, recordId, processor, outData, now);
    if o.result.Ok? {
      var s := db.nodeInstances;
      var t := o.db.nodeInstances;
      assert t == CompleteRows(s, recordId, processor, outData, now);
      var k := NodeInstanceIndex(db, recordId).value;
      assert t[k] == Completed(s[k], processor, outData, now);
      var k' := NodeInstanceIndex(o.db, recordId);
      assert k'.Some?;
      assert k'.value == k;
    }
  }

  /** A node instance cannot be completed twice: the second call is rejected and changes nothing. */
  lemma DoneTwiceRejected(db: Db, faults: nat -> DbFault, recordId: string, p1: string, d1: string, t1: int,
                          p2: string, d2: string, t2: int)
    ensures var o1 := DoneNodeInstance(db, faults, recordId, p1, d1, t1);
            o1.result.Ok? ==>
              DoneNodeInstance(o1.db, faults, recordId, p2, d2, t2) == Outcome(Err(InvalidNodeInstance), o1.db)
  {
    DoneNodeInstanceCompletes(db, faults, recordId, p1, d1, t1);
  }

  /** The candidate rows CreateNodeInstance builds: one per identifier, in order, duplicates kept. */
  function NewCandidates(nodeInstanceId: string, cands: seq<string>, first: nat, now: int)
    : (r: seq<NodeCandidate>)
    ensures |r| == |cands|
    ensures forall k :: 0 <= k < |r| ==>
              && r[k].candidateId == cands[k] && r[k].nodeInstanceId == nodeInstanceId
              && r[k].recordId == Uuid(first + k) && r[k].deleted == 0
  {
    seq(|cands|, k requires 0 <= k < |cands| => NodeCandidate(Uuid(first + k), nodeInstanceId, cands[k], now, 0))
  }

  /** The pending node instance a service call creates. */
  function PendingInstance(recordId: string, flowInstanceId: string, nodeId: string, input: string, now: int)
    : (r: NodeInstance)
    ensures r.recordId == recordId && r.flowInstanceId == flowInstanceId && r.nodeId == nodeId
    ensures r.inputData == input && r.status == NodePending && r.deleted == 0
  {
    NodeInstance(recordId, flowInstanceId, nodeId, "", 0, input, "", NodePending, now, 0, 0)
  }

  /**
   * CreateNodeInstance: a pending instance with the next UUID, and one
   * candidate row per identifier with the UUIDs after it; the instance's
   * record id is returned.
   */
  function CreateNodeInstance(db: Db, faults: nat -> DbFault, flowInstanceId: string, nodeId: string,
                              input: string, cands: seq<string>, now: int): (o: Outcome<string>)
    ensures o.db.uuidNext == db.uuidNext + 1 + |cands|
    ensures o.result.Ok? ==>
              && o.result.value == Uuid(db.uuidNext)
              && o.db.nodeInstances ==
                   db.nodeInstances + [PendingInstance(Uuid(db.uuidNext), flowInstanceId, nodeId, input, now)]
              && o.db.candidates == db.candidates + NewCandidates(Uuid(db.uuidNext), cands, db.uuidNext + 1, now)
    ensures o.result.Err? ==> o.db == Tick(db).(uuidNext := db.uuidNext + 1 + |cands|)
  {
    var id := Uuid(db.uuidNext);
    var ni := PendingInstance(id, flowInstanceId, nodeId, input, now);
    var cs := NewCandidates(id, cands, db.uuidNext + 1, now);
    var w := Tables.CreateNodeInstance(db.(uuidNext := db.uuidNext + 1 + |cands|), faults, ni, cs);
    Outcome(if w.result.Ok? then Ok(id) else Err(w.result.error), w.db)
  }

  /**
   * Appending the candidate rows of a new instance: a user is a live
   * candidate of it exactly when the user is among the identifiers.
   */
  lemma NewCandidatesMatch(rows: seq<NodeCandidate>, nodeInstanceId: string, cands: seq<string>, first: nat,
                           now: int, userId: string)
    requires forall c :: c in rows ==> c.nodeInstanceId != nodeInstanceId
    ensures var all := rows + NewCandidates(nodeInstanceId, cands, first, now);
            (exists c :: c in all && c.nodeInstanceId == nodeInstanceId && c.candidateId == userId && c.deleted == 0)
            <==> userId in cands
  {
    var cs := NewCandidates(nodeInstanceId, cands, first, now);
    var all := rows + cs;
    if userId in cands {
      var k :| 0 <= k < |cands| && cands[k] == userId;
      assert cs[k] in all;
    }
    if exists c :: c in all && c.nodeInstanceId == nodeInstanceId && c.candidateId == userId && c.deleted == 0 {
      var c :| c in all && c.nodeInstanceId == nodeInstanceId && c.candidateId == userId && c.deleted == 0;
      assert c !in rows;
      var k :| 0 <= k < |cs| && cs[k] == c;
      assert cands[k] == userId;
    }
  }

  /**
   * After a successful CreateNodeInstance, exactly the given identifiers are
   * candidates of the new instance, provided its UUID was not in use.
   */
  lemma CreatedCandidatesMayAct(db: Db, faults: nat -> DbFault, flowInstanceId: string, nodeId: string,
                                input: string, cands: seq<string>, now: int, userId: string)
    requires forall c :: c in db.candidates ==> c.nodeInstanceId != Uuid(db.uuidNext)
    ensures var o := CreateNodeInstance(db, faults, flowInstanceId, nodeId, input, cands, now);
            o.result.Ok? ==> (CheckNodeCandidate(o.db, o.result.value, userId) <==> userId in cands)
  {
    var o := CreateNodeInstance(db, faults, flowInstanceId, nodeId, input, cands, now);
    if o.result.Ok? {
      NewCandidatesMatch(db.candidates, Uuid(db.uuidNext), cands, db.uuidNext + 1, now, userId);
    }
  }

  /** The flow instance LaunchFlowInstance creates: in progress, launched now by the launcher. */
  function RunningInstance(recordId: string, flowId: string, launcher: string, now: int): (r: FlowInstance)
    ensures r.recordId == recordId && r.flowId == flowId && r.launcher == launcher
    ensures r.status == InstanceRunning && r.launchTime == now && r.deleted == 0
  {
    FlowInstance(recordId, flowId, InstanceRunning, launcher, now, now, 0)
  }

  /**
   * LaunchFlowInstance: nothing is created, and no error is reported, when
   * the flow code or the node code is unknown; otherwise a running flow
   * instance and its first pending node instance are created together and
   * the node instance is returned.
   */
  function LaunchFlowInstance(db: Db, faults: nat -> DbFault, flowCode: string, nodeCode: string,
                              launcher: string, input: string, now: int): (o: Outcome<Option<NodeInstance>>)
    ensures GetFlowByCode(db, flowCode).None? ==> o == Outcome(Ok(None), db)
    ensures GetFlowByCode(db, flowCode).Some? &&
            GetNodeByCode(db, GetFlowByCode(db, flowCode).value.recordId, nodeCode).None?
            ==> o == Outcome(Ok(None), db)
    ensures o.result.Ok? && o.result.value.Some? ==>
              var ni := o.result.value.value;
              && GetFlowByCode(db, flowCode).Some?
              && var flow := GetFlowByCode(db, flowCode).value;
              && GetNodeByCode(db, flow.recordId, nodeCode).Some?
              && ni == PendingInstance(Uuid(db.uuidNext + 1), Uuid(db.uuidNext),
                                       GetNodeByCode(db, flow.recordId, nodeCode).value.recordId, input, now)
              && o.db.flowInstances == db.flowInstances + [RunningInstance(Uuid(db.uuidNext), flow.recordId, launcher, now)]
              && o.db.nodeInstances == db.nodeInstances + [ni]
    ensures GetFlowByCode(db, flowCode).Some? &&
            GetNodeByCode(db, GetFlowByCode(db, flowCode).value.recordId, nodeCode).Some?
            ==> o.result != Ok(None)
    ensures o.result.Err? ==> o.db == Tick(db).(uuidNext := db.uuidNext + 2)
  {
    match GetFlowByCode(db, flowCode)
    case None => Outcome(Ok(None), db)
    case Some(flow) =>
      match GetNodeByCode(db, flow.recordId, nodeCode)
      case None => Outcome(Ok(None), db)
      case Some(node) =>
        var fi := RunningInstance(Uuid(db.uuidNext), flow.recordId, launcher, now);
        var ni := PendingInstance(Uuid(db.uuidNext + 1), fi.recordId, node.recordId, input, now);
        var w := Tables.CreateFlowInstance(db.(uuidNext := db.uuidNext + 2), faults, fi, [ni]);
        Outcome(if w.result.Ok? then Ok(Some(ni)) else Err(w.result.error), w.db)
  }

  /**
   * A launched flow instance is found by GetFlowInstance, is in progress and
   * still has work to do, and its first node instance is found by
   * GetNodeInstance, provided the two UUIDs were not in use.
   */
  lemma LaunchedInstanceIsPending(db: Db, faults: nat -> DbFault, flowCode: string, nodeCode: string,
                                  launcher: string, input: string, now: int)
    requires forall f :: f in db.flowInstances ==> f.recordId != Uuid(db.uuidNext)
    requires forall n :: n in db.nodeInstances ==> n.recordId != Uuid(db.uuidNext + 1)
    ensures var o := LaunchFlowInstance(db, faults, flowCode, nodeCode, launcher, input, now);
            o.result.Ok? && o.result.value.Some? ==>
              var ni := o.result.value.value;
              && GetFlowInstance(o.db, ni.flowInstanceId).Some?
              && GetFlowInstance(o.db, ni.flowInstanceId).value.status == InstanceRunning
              && GetFlowInstance(o.db, ni.flowInstanceId).value.launcher == launcher
              && GetNodeInstance(o.db, ni.recordId) == Some(ni)
              && CheckFlowInstanceTodo(o.db, ni.flowInstanceId)
  {
    var o := LaunchFlowInstance(db, faults, flowCode, nodeCode, launcher, input, now);
    if o.result.Ok? && o.result.value.Some? {
      var ni := o.result.value.value;
      var fi := RunningInstance(Uuid(db.uuidNext), GetFlowByCode(db, flowCode).value.recordId, launcher, now);
      assert o.db.flowInstances == db.flowInstances + [fi];
      var got := GetFlowInstance(o.db, ni.flowInstanceId);
      assert fi in o.db.flowInstances;
      assert got.Some? && got.value == fi;
      assert ni in o.db.nodeInstances;
    }
  }

  /**
   * GetNodeProperty's fold: each property in turn sets its name to its
   * value. The names present are exactly the properties' names.
   */
  function PropertyMap(props: seq<NodeProperty>): (m: map<string, string>)
    ensures forall i :: 0 <= i < |props| ==> props[i].name in m
    ensures forall k :: k in m ==> exists i :: 0 <= i < |props| && props[i].name == k
    decreases |props|
  {
    if |props| == 0 then map[]
    else PropertyMap(props[..|props| - 1])[props[|props| - 1].name := props[|props| - 1].value]
  }

  /** A later property with the same name overwrites an earlier one: the last one wins. */
  lemma {:induction false} PropertyMapLastWins(props: seq<NodeProperty>, i: nat)
    requires i < |props|
    requires forall j :: i < j < |props| ==> props[j].name != props[i].name
    ensures PropertyMap(props)[props[i].name] == props[i].value
    decreases |props|
  {
    if i < |props| - 1 {
      var init := props[..|props| - 1];
      assert init[i] == props[i];
      PropertyMapLastWins(init, i);
    }
  }
}
