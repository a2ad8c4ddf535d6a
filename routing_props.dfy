/**
 * What the node router promises, stated over the routing functions: Init's
 * lookups and options, join suppression, completion before routing, the
 * parallel-join guard, checkNextNodeType, the end of a flow, the fan-out of
 * addNextNodeInstances and the successor loop.
 */
module RoutingProps {
  import opened Wrappers
  import opened Model
  import opened NodeTypes
  import opened Tables
  import Transitions
  import opened Expression
  import opened Routing

  // ---------------------------------------------------------------------
  // Init and the options
  // ---------------------------------------------------------------------

  /**
   * Init fails, always with NotFound, exactly when the node instance, its
   * flow instance or its node is missing; otherwise it loads the three live
   * records, linked to each other.
   */
  lemma InitLoads(db: Db, nodeInstanceId: string)
    ensures var r := InitSpec(db, nodeInstanceId);
            var ni := GetNodeInstance(db, nodeInstanceId);
            && (r.Err? ==> r.error == NotFound)
            && (r.Ok? <==> ni.Some? && GetFlowInstance(db, ni.value.flowInstanceId).Some?
                           && GetNode(db, ni.value.nodeId).Some?)
            && (r.Ok? ==> && r.value.0.recordId == nodeInstanceId && r.value.0.deleted == 0
                          && r.value.1.recordId == r.value.0.flowInstanceId && r.value.1.deleted == 0
                          && r.value.2.recordId == r.value.0.nodeId && r.value.2.deleted == 0)
  {
  }

  /** Init's options: autoStart is on, and each handler is the one the last option of its kind sets. */
  lemma {:induction false} OptionsLastWins(options: seq<RouterOption>)
    ensures ApplyAll(options) == Options(true, LastNextNode(options), LastFlowEnd(options))
    decreases |options|
  {
    if |options| > 0 {
      OptionsLastWins(options[..|options| - 1]);
    }
  }

  // ---------------------------------------------------------------------
  // Join suppression, completion, the parallel-join guard
  // ---------------------------------------------------------------------

  /**
   * Join suppression: a user task reached from a parent that is not an
   * auto-starting start event writes nothing, reports no error, does not
   * stop, and calls onNextNode, if set, once with the node, its instance
   * and its live candidates.
   */
  lemma SuppressedWritesNothing(env: Env, f: Frame, db: Db, depth: nat)
    requires ByName(f.node.typeCode) == Some(UserTask)
    requires f.parent.Some? && ByName(f.parent.value.node.typeCode).Some?
    requires Suppressed(f, ByName(f.parent.value.node.typeCode).value)
    ensures var r := NextSpec(env, f, db, depth);
            && r.db == db && r.err == None && !r.stop
            && (env.opts.onNextNode.None? ==> r.events == [])
            && (env.opts.onNextNode.Some? ==>
                  r.events == [NextNodeCalled(env.opts.onNextNode.value, f.node, f.nodeInstance,
                                              QueryNodeCandidates(db, f.nodeInstance.recordId))])
  {
  }

  /**
   * Every other frame of a known type goes on to complete its node
   * instance: a root frame, a frame that is not a user task, or a user task
   * reached from an auto-starting start event.
   */
  lemma CompletesUnlessSuppressed(env: Env, f: Frame, db: Db, depth: nat)
    requires ByName(f.node.typeCode).Some?
    requires ByName(f.node.typeCode) == Some(UserTask) && f.parent.Some? ==>
               ByName(f.parent.value.node.typeCode) == Some(StartEvent) && f.parent.value.autoStart
    ensures NextSpec(env, f, db, depth) == Proceed(env, f, ByName(f.node.typeCode).value, db, depth)
  {
  }

  /**
   * The node instance is completed before any routing: when completing it
   * fails, that error is returned, no handler is called and no node
   * instance is created.
   */
  lemma DoneFailureStops(env: Env, f: Frame, t: NodeType, db: Db, depth: nat)
    ensures var o := Transitions.DoneNodeInstance(db, env.faults, f.nodeInstance.recordId, env.processor,
                                                  f.input, env.now);
            var r := Proceed(env, f, t, db, depth);
            o.result.Err? ==>
              r.err == Some(o.result.error) && r.events == [] && !r.stop && r.db.nodeInstances == db.nodeInstances
  {
  }

  /**
   * The parallel-join guard: a root user task whose next node is a
   * parallel gateway waits, without creating anything, while its flow
   * instance still has a pending node instance.
   */
  lemma ParallelGuardWaits(env: Env, f: Frame, db: Db, depth: nat)
    requires f.parent.None?
    ensures var o := Transitions.DoneNodeInstance(db, env.faults, f.nodeInstance.recordId, env.processor,
                                                  f.input, env.now);
            o.result.Ok? && CheckNextNodeType(env.execer, f, o.db, ParallelGateway) == Ok(true)
            && CheckFlowInstanceTodo(o.db, f.flowInstance.recordId)
            ==> Proceed(env, f, UserTask, db, depth) == Run(o.db, [], None, false)
  {
  }

  // ---------------------------------------------------------------------
  // checkNextNodeType
  // ---------------------------------------------------------------------

  /** A router checkNextNodeType passes over: its guard is false, or its target exists and is of another type. */
  predicate PassedOver(ex: Execer, f: Frame, db: Db, r: NodeRouter, t: NodeType) {
    || Guard(ex, f, r.expression) == Ok(false)
    || (Guard(ex, f, r.expression) == Ok(true) && GetNode(db, r.targetNodeId).Some?
        && GetNode(db, r.targetNodeId).value.typeCode != Name(t))
  }

  /** A router whose guard lets it through to an existing target of type `t`. */
  predicate LeadsTo(ex: Execer, f: Frame, db: Db, r: NodeRouter, t: NodeType) {
    Guard(ex, f, r.expression) == Ok(true) && GetNode(db, r.targetNodeId).Some?
    && GetNode(db, r.targetNodeId).value.typeCode == Name(t)
  }

  /** Some router from `i` on leads to a node of type `t`, and every router before it was passed over. */
  predicate Finds(ex: Execer, f: Frame, db: Db, rs: seq<NodeRouter>, i: nat, t: NodeType) {
    exists k :: i <= k < |rs| && LeadsTo(ex, f, db, rs[k], t)
                && forall j :: i <= j < k ==> PassedOver(ex, f, db, rs[j], t)
  }

  /** Finds, one router at a time. */
  lemma FindsStep(ex: Execer, f: Frame, db: Db, rs: seq<NodeRouter>, i: nat, t: NodeType)
    requires i < |rs|
    ensures Finds(ex, f, db, rs, i, t) <==>
              LeadsTo(ex, f, db, rs[i], t) || (PassedOver(ex, f, db, rs[i], t) && Finds(ex, f, db, rs, i + 1, t))
  {
    if Finds(ex, f, db, rs, i, t) && !LeadsTo(ex, f, db, rs[i], t) {
      var k :| i <= k < |rs| && LeadsTo(ex, f, db, rs[k], t)
               && forall j :: i <= j < k ==> PassedOver(ex, f, db, rs[j], t);
      assert k != i;
      assert PassedOver(ex, f, db, rs[i], t);
    }
    if PassedOver(ex, f, db, rs[i], t) && Finds(ex, f, db, rs, i + 1, t) {
      var k :| i + 1 <= k < |rs| && LeadsTo(ex, f, db, rs[k], t)
               && forall j :: i + 1 <= j < k ==> PassedOver(ex, f, db, rs[j], t);
      assert forall j :: i <= j < k ==> PassedOver(ex, f, db, rs[j], t);
    }
  }

  /**
   * checkNextNodeType answers true exactly when some router leads to a node
   * of type `t` and every router before it was passed over, so a guard
   * error or a missing target among those before ends the search.
   */
  lemma {:induction false} CheckFromFinds(ex: Execer, f: Frame, db: Db, rs: seq<NodeRouter>, i: nat, t: NodeType)
    requires i <= |rs|
    ensures CheckFrom(ex, f, db, rs, i, t) == Ok(true) <==> Finds(ex, f, db, rs, i, t)
    decreases |rs| - i
  {
    if i < |rs| {
      CheckFromFinds(ex, f, db, rs, i + 1, t);
      FindsStep(ex, f, db, rs, i, t);
    }
  }

  /** checkNextNodeType answers false as soon as a router let through has no target, whatever follows. */
  lemma CheckStopsAtMissingTarget(ex: Execer, f: Frame, db: Db, rs: seq<NodeRouter>, i: nat, t: NodeType)
    requires i < |rs| && Guard(ex, f, rs[i].expression) == Ok(true) && GetNode(db, rs[i].targetNodeId).None?
    ensures CheckFrom(ex, f, db, rs, i, t) == Ok(false)
  {
  }

  // ---------------------------------------------------------------------
  // The end of a flow
  // ---------------------------------------------------------------------

  /**
   * End and terminate events create no node instance; an end event with a
   * pending node instance does nothing; the flow ends (stop) exactly when
   * it is a terminate event or nothing is pending, and the status update
   * succeeds; ending writes status 9 and calls onFlowEnd, if set, once.
   */
  lemma EndCreatesNothing(env: Env, f: Frame, t: NodeType, db: Db, depth: nat)
    requires t == EndEvent || t == TerminateEvent
    ensures var r := Route(env, f, t, db, depth);
            var id := f.flowInstance.recordId;
            && r.db.nodeInstances == db.nodeInstances && r.db.candidates == db.candidates
            && (t == EndEvent && CheckFlowInstanceTodo(db, id) ==> r == Run(db, [], None, false))
            && (r.stop <==> (t == TerminateEvent || !CheckFlowInstanceTodo(db, id))
                            && UpdateFlowInstanceStatus(db, env.faults, id, InstanceCompleted).result.Ok?)
            && (r.stop ==> r.err.None? && r.db.flowInstances == StatusRows(db.flowInstances, id, InstanceCompleted))
            && (r.events != [] <==> r.stop && env.opts.onFlowEnd.Some?)
            && (r.events != [] ==> r.events == [FlowEndCalled(env.opts.onFlowEnd.value, f.flowInstance)])
  {
  }

  /** After the status update, the live flow instance with that id is found again, with status 9. */
  lemma StatusUpdateEnds(s: seq<FlowInstance>, id: string)
    requires LiveFlowInstance(s, id).Some?
    ensures var r := LiveFlowInstance(StatusRows(s, id, InstanceCompleted), id);
            r.Some? && r.value.status == InstanceCompleted
  {
    var t := StatusRows(s, id, InstanceCompleted);
    var k :| 0 <= k < |s| && s[k] == LiveFlowInstance(s, id).value;
    assert t[k] in t && t[k].recordId == id && t[k].deleted == 0;
    var r := LiveFlowInstance(t, id);
    var j :| 0 <= j < |t| && t[j] == r.value;
    assert s[j].recordId == id;
  }

  // ---------------------------------------------------------------------
  // addNextNodeInstances
  // ---------------------------------------------------------------------

  /** A router with no routers leaving the node: no successors and no error, nothing written. */
  lemma NoRoutersNoSuccessors(env: Env, f: Frame, db: Db)
    requires QueryNodeRouters(db, f.node.recordId) == []
    ensures AddNextNodeInstances(env, f, db) == Fanout(db, Ok([]))
  {
  }

  /**
   * The candidate lists of assignments `i` on, concatenated in order; the
   * first error wins.
   */
  function StringsFrom(ex: Execer, f: Frame, assigns: seq<NodeAssignment>, i: nat): Result<seq<string>>
    requires i <= |assigns|
    decreases |assigns| - i
  {
    if i == |assigns| then Ok([])
    else
      match ex.returnStrings(assigns[i].expression, ExpDataOf(f))
      case Err(e) => Err(e)
      case Ok(ss) =>
        match StringsFrom(ex, f, assigns, i + 1)
        case Err(e) => Err(e)
        case Ok(rest) => Ok(ss + rest)
  }

  /** The candidates of a successor are the in-order concatenation of every assignment's list. */
  lemma {:induction false} CandidatesConcatenate(ex: Execer, f: Frame, assigns: seq<NodeAssignment>, i: nat,
                                                 acc: seq<string>)
    requires i <= |assigns|
    ensures Candidates(ex, f, assigns, i, acc) ==
              match StringsFrom(ex, f, assigns, i)
              case Err(e) => Err(e)
              case Ok(s) => Ok(acc + s)
    decreases |assigns| - i
  {
    if i == |assigns| {
      assert acc + [] == acc;
    } else {
      match ex.returnStrings(assigns[i].expression, ExpDataOf(f))
      case Err(e) =>
      case Ok(ss) =>
        CandidatesConcatenate(ex, f, assigns, i + 1, acc + ss);
        match StringsFrom(ex, f, assigns, i + 1)
        case Err(e) =>
        case Ok(rest) =>
          assert acc + ss + rest == acc + (ss + rest);
    }
  }

  /**
   * One router: when it creates an instance, that is a pending instance of
   * this flow instance and of the router's target, carrying the input, and
   * its candidate rows are its candidates in order; otherwise no node
   * instance is added.
   */
  lemma AddStepAppends(env: Env, f: Frame, item: NodeRouter, db: Db)
    ensures var a := AddStep(env, f, item, db);
            && (a.id.Ok? && a.id.value.Some? ==>
                  && Guard(env.execer, f, item.expression) == Ok(true)
                  && var cands := Candidates(env.execer, f, QueryNodeAssignments(db, item.targetNodeId), 0, []);
                  && cands.Ok?
                  && a.db.nodeInstances == db.nodeInstances + [Transitions.PendingInstance(a.id.value.value,
                       f.flowInstance.recordId, item.targetNodeId, f.input, env.now)]
                  && a.db.candidates == db.candidates + Transitions.NewCandidates(a.id.value.value, cands.value,
                                                                                  db.uuidNext + 1, env.now))
            && (!(a.id.Ok? && a.id.value.Some?) ==> a.db.nodeInstances == db.nodeInstances)
            && (a.id == Ok(None) <==> Guard(env.execer, f, item.expression) == Ok(false))
  {
  }

  /** A pending instance of this flow instance, carrying the input, of router `r`'s target. */
  predicate PendingVia(x: NodeInstance, f: Frame, r: NodeRouter) {
    && x.status == NodePending && x.flowInstanceId == f.flowInstance.recordId && x.inputData == f.input
    && x.nodeId == r.targetNodeId
  }

  /**
   * `added[k]` is a pending instance of router `js[k]`'s target, the routers
   * are taken from `i` on, and strictly ascending: at most one instance per
   * router, in router order.
   */
  predicate InRouterOrder(added: seq<NodeInstance>, js: seq<nat>, f: Frame, rs: seq<NodeRouter>, i: nat) {
    && |js| == |added|
    && (forall k :: 0 <= k < |js| ==> i <= js[k] < |rs| && PendingVia(added[k], f, rs[js[k]]))
    && (forall k, l :: 0 <= k < l < |js| ==> js[k] < js[l])
  }

  /** `after` keeps `before` and appends only pending instances of routers from `i` on, in router order. */
  ghost predicate AppendsPending(before: seq<NodeInstance>, after: seq<NodeInstance>, f: Frame, rs: seq<NodeRouter>, i: nat) {
    && |before| <= |after| && after[..|before|] == before
    && exists js :: InRouterOrder(after[|before|..], js, f, rs, i)
  }

  /** Nothing appended is trivially in router order. */
  lemma AppendsNothing(s: seq<NodeInstance>, f: Frame, rs: seq<NodeRouter>, i: nat)
    ensures AppendsPending(s, s, f, rs, i)
  {
    assert s[..|s|] == s;
    assert InRouterOrder(s[|s|..], [], f, rs, i);
  }

  /**
   * Router `i` appends nothing or one instance of its own target, and the
   * routers after it append in router order: together they append in router
   * order from `i` on.
   */
  lemma AppendsPendingStep(a: seq<NodeInstance>, b: seq<NodeInstance>, c: seq<NodeInstance>, f: Frame,
                           rs: seq<NodeRouter>, i: nat)
    requires i < |rs|
    requires b == a || (|b| == |a| + 1 && b[..|a|] == a && PendingVia(b[|a|], f, rs[i]))
    requires AppendsPending(b, c, f, rs, i + 1)
    ensures AppendsPending(a, c, f, rs, i)
  {
    var js :| InRouterOrder(c[|b|..], js, f, rs, i + 1);
    assert c[..|a|] == c[..|b|][..|a|];
    if b == a {
      assert InRouterOrder(c[|a|..], js, f, rs, i);
    } else {
      assert c[|a|] == c[..|b|][|a|] == b[|a|];
      assert c[|a|..] == [b[|a|]] + c[|b|..];
      InRouterOrderCons(b[|a|], c[|b|..], js, f, rs, i);
    }
  }

  lemma InRouterOrderCons(x: NodeInstance, added: seq<NodeInstance>, js: seq<nat>, f: Frame, rs: seq<NodeRouter>, i: nat)
    requires i < |rs| && PendingVia(x, f, rs[i]) && InRouterOrder(added, js, f, rs, i + 1)
    ensures InRouterOrder([x] + added, [i] + js, f, rs, i)
  {
    forall k, l | 0 <= k < l < |js| + 1
      ensures ([i] + js)[k] < ([i] + js)[l]
    {
      if k > 0 {
        assert ([i] + js)[k] == js[k - 1];
      }
      assert ([i] + js)[l] == js[l - 1];
    }
    forall k | 0 <= k < |js| + 1
      ensures i <= ([i] + js)[k] < |rs| && PendingVia(([x] + added)[k], f, rs[([i] + js)[k]])
    {
      if k > 0 {
        assert ([i] + js)[k] == js[k - 1] && ([x] + added)[k] == added[k - 1];
      }
    }
  }

  /**
   * addNextNodeInstances from router `i` on keeps every instance already
   * there, also when it stops on an error, and only appends pending
   * instances of this flow instance carrying the input, at most one per
   * router and in router order, each of its router's target.
   */
  lemma {:induction false} AddFromAppendsPending(env: Env, f: Frame, rs: seq<NodeRouter>, i: nat, db: Db,
                                                 ids: seq<string>)
    requires i <= |rs|
    ensures AppendsPending(db.nodeInstances, AddFrom(env, f, rs, i, db, ids).db.nodeInstances, f, rs, i)
    decreases |rs| - i
  {
    if i < |rs| {
      var a := AddStep(env, f, rs[i], db);
      AddStepAppends(env, f, rs[i], db);
      match a.id
      case Err(e) =>
        AppendsNothing(db.nodeInstances, f, rs, i);
      case Ok(None) =>
        assert AddFrom(env, f, rs, i, db, ids) == AddFrom(env, f, rs, i + 1, a.db, ids);
        AddFromAppendsPending(env, f, rs, i + 1, a.db, ids);
        AppendsPendingStep(db.nodeInstances, a.db.nodeInstances, AddFrom(env, f, rs, i, db, ids).db.nodeInstances,
                           f, rs, i);
      case Ok(Some(id)) =>
        assert (db.nodeInstances + [a.db.nodeInstances[|db.nodeInstances|]])[..|db.nodeInstances|] == db.nodeInstances;
        assert AddFrom(env, f, rs, i, db, ids) == AddFrom(env, f, rs, i + 1, a.db, ids + [id]);
        AddFromAppendsPending(env, f, rs, i + 1, a.db, ids + [id]);
        AppendsPendingStep(db.nodeInstances, a.db.nodeInstances, AddFrom(env, f, rs, i, db, ids).db.nodeInstances,
                           f, rs, i);
    } else {
      AppendsNothing(db.nodeInstances, f, rs, i);
    }
  }

  /** `out` keeps `ids` and continues with the record ids of `insts` from position `n` on, in order. */
  predicate IdsFollow(ids: seq<string>, out: seq<string>, n: nat, insts: seq<NodeInstance>) {
    && |ids| <= |out| && |out| == |ids| + |insts| - n
    && out[..|ids|] == ids
    && forall k :: |ids| <= k < |out| ==> out[k] == insts[n - |ids| + k].recordId
  }

  lemma IdsFollowCons(ids: seq<string>, id: string, out: seq<string>, n: nat, insts: seq<NodeInstance>)
    requires n < |insts| && insts[n].recordId == id
    requires IdsFollow(ids + [id], out, n + 1, insts)
    ensures IdsFollow(ids, out, n, insts)
  {
    assert out[..|ids|] == out[..|ids| + 1][..|ids|];
    assert out[|ids|] == (ids + [id])[|ids|];
  }

  /** `a` appended at most one instance to `before`, and the id it returned is that instance's record id. */
  predicate AddedOne(before: seq<NodeInstance>, a: Added) {
    var n := |before|;
    && (a.id.Ok? && a.id.value.Some? ==>
          && |a.db.nodeInstances| == n + 1 && a.db.nodeInstances[..n] == before
          && a.db.nodeInstances[n].recordId == a.id.value.value)
    && (!(a.id.Ok? && a.id.value.Some?) ==> a.db.nodeInstances == before)
  }

  lemma AddStepAppendsOne(env: Env, f: Frame, item: NodeRouter, db: Db)
    ensures AddedOne(db.nodeInstances, AddStep(env, f, item, db))
  {
    AddStepAppends(env, f, item, db);
  }

  /**
   * On success, the ids addNextNodeInstances returns are the record ids of
   * the instances it appended, in order.
   */
  lemma {:induction false} AddFromIds(env: Env, f: Frame, rs: seq<NodeRouter>, i: nat, db: Db, ids: seq<string>)
    requires i <= |rs|
    ensures var fan := AddFrom(env, f, rs, i, db, ids);
            && db.nodeInstances <= fan.db.nodeInstances
            && (fan.ids.Ok? ==> IdsFollow(ids, fan.ids.value, |db.nodeInstances|, fan.db.nodeInstances))
    decreases |rs| - i, 1
  {
    if i < |rs| {
      AddStepAppendsOne(env, f, rs[i], db);
      AddAfterIds(env, f, rs, i, db.nodeInstances, AddStep(env, f, rs[i], db), ids);
    } else {
      assert ids[..|ids|] == ids;
    }
  }

  lemma {:induction false} AddAfterIds(env: Env, f: Frame, rs: seq<NodeRouter>, i: nat, before: seq<NodeInstance>,
                                       a: Added, ids: seq<string>)
    requires i < |rs| && AddedOne(before, a)
    ensures var fan := AddAfter(env, f, rs, i, a, ids);
            && before <= fan.db.nodeInstances
            && (fan.ids.Ok? ==> IdsFollow(ids, fan.ids.value, |before|, fan.db.nodeInstances))
    decreases |rs| - i, 0
  {
    match a.id
    case Err(e) =>
    case Ok(None) =>
      AddFromIds(env, f, rs, i + 1, a.db, ids);
    case Ok(Some(id)) =>
      AddFromIds(env, f, rs, i + 1, a.db, ids + [id]);
      var fan := AddFrom(env, f, rs, i + 1, a.db, ids + [id]);
      var n := |before|;
      assert fan.db.nodeInstances[..n] == a.db.nodeInstances[..n];
      if fan.ids.Ok? {
        assert fan.db.nodeInstances[n] == a.db.nodeInstances[n];
        IdsFollowCons(ids, id, fan.ids.value, n, fan.db.nodeInstances);
      }
  }

  // ---------------------------------------------------------------------
  // The successor loop
  // ---------------------------------------------------------------------

  /**
   * The successor loop never sets the parent's `stop`, and only appends to
   * the handler calls made before it.
   */
  lemma {:induction false} ChildrenNeverStop(env: Env, f: Frame, ids: seq<string>, i: nat, db: Db,
                                             events: seq<Event>, depth: nat)
    requires i <= |ids|
    ensures var r := ChildrenSpec(env, f, ids, i, db, events, depth);
            !r.stop && events <= r.events
    decreases |ids| - i, 1
  {
    if i < |ids| && depth > 0 && InitSpec(db, ids[i]).Ok? {
      var r := NextSpec(env, ChildFrame(env, f, InitSpec(db, ids[i]).value), db, depth - 1);
      ChildAfterNeverStops(env, f, ids, i, r, events, depth);
    }
  }

  lemma {:induction false} ChildAfterNeverStops(env: Env, f: Frame, ids: seq<string>, i: nat, r: Run,
                                                events: seq<Event>, depth: nat)
    requires i < |ids|
    ensures var c := ChildAfter(env, f, ids, i, r, events, depth);
            !c.stop && events <= c.events
    decreases |ids| - i, 0
  {
    var mid := events + r.events;
    assert events <= mid;
    if r.err.None? && !r.stop {
      ChildrenNeverStop(env, f, ids, i + 1, r.db, mid, depth);
      var rest := ChildrenSpec(env, f, ids, i + 1, r.db, mid, depth);
      assert events <= rest.events by { assert rest.events[..|events|] == rest.events[..|mid|][..|events|]; }
    }
  }

  /** Routing past a node that does not end the flow never sets `stop`. */
  lemma RouteNeverStops(env: Env, f: Frame, t: NodeType, db: Db, depth: nat)
    requires t != EndEvent && t != TerminateEvent
    ensures !Route(env, f, t, db, depth).stop
  {
    var fan := AddNextNodeInstances(env, f, db);
    if fan.ids.Ok? {
      ChildrenNeverStop(env, f, fan.ids.value, 0, fan.db, [], depth);
    }
  }

  lemma ProceedNeverStops(env: Env, f: Frame, t: NodeType, db: Db, depth: nat)
    requires t != EndEvent && t != TerminateEvent
    ensures !Proceed(env, f, t, db, depth).stop
  {
    var o := Transitions.DoneNodeInstance(db, env.faults, f.nodeInstance.recordId, env.processor, f.input, env.now);
    RouteNeverStops(env, f, t, o.db, depth);
  }

  /** Only an end or terminate event stops the routing: a run that sets `stop` began at one. */
  lemma StopOnlyAtFlowEnd(env: Env, f: Frame, db: Db, depth: nat)
    ensures NextSpec(env, f, db, depth).stop ==>
              ByName(f.node.typeCode) == Some(EndEvent) || ByName(f.node.typeCode) == Some(TerminateEvent)
  {
    match ByName(f.node.typeCode)
    case None =>
    case Some(t) =>
      if t != EndEvent && t != TerminateEvent {
        ProceedNeverStops(env, f, t, db, depth);
      }
  }
}
