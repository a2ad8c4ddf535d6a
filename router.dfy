/**
 * The node router (node_router.go): a router is loaded with one node
 * instance, completes it, and creates and visits the instances that follow
 * it, one router per successor. Each method is proved to do what the
 * Routing functions say of the router's frame and the store it starts from.
 */
module Router {
  import opened Wrappers
  import Model
  import opened NodeTypes
  import Tables
  import opened Expression
  import opened Routing
  import Service
  import FlowEngine

  /** The records a router holds before Init loads them. */
  function NoNode(): Model.Node { Model.Node("", "", "", "", "", "", "", 0, 0) }
  function NoFlowInstance(): Model.FlowInstance { Model.FlowInstance("", "", 0, "", 0, 0, 0) }
  function NoNodeInstance(): Model.NodeInstance { Model.NodeInstance("", "", "", "", 0, "", "", 0, 0, 0, 0) }

  /** The option loop of Init: each option applied to the defaults in order. */
  method ApplyOptions(options: seq<RouterOption>) returns (o: Options)
    ensures o == ApplyAll(options)
  {
    o := Options(true, None, None);
    for k := 0 to |options|
      invariant o == ApplyAll(options[..k])
    {
      assert options[..k + 1][..k] == options[..k];
      o := Apply(o, options[k]);
    }
    assert options[..|options|] == options;
  }

  /** The router loop of checkNextNodeType, over the data context of frame `f`. */
  method CheckRouters(ex: Execer, data: ExpData, ghost f: Frame, db: Tables.Db, routers: seq<Model.NodeRouter>,
                      t: NodeType) returns (r: Result<bool>)
    requires data == ExpDataOf(f)
    ensures r == CheckFrom(ex, f, db, routers, 0, t)
  {
    for i := 0 to |routers|
      invariant CheckFrom(ex, f, db, routers, i, t) == CheckFrom(ex, f, db, routers, 0, t)
    {
      var item := routers[i];
      if item.expression != "" {
        var allow := ex.returnBool(item.expression, data);
        if allow.Err? {
          return Err(allow.error);
        }
        if !allow.value {
          continue;
        }
      }
      var target := Tables.GetNode(db, item.targetNodeId);
      if target.None? {
        return Ok(false);
      }
      if target.value.typeCode == Name(t) {
        return Ok(true);
      }
    }
    return Ok(false);
  }

  /** The candidate loop of addNextNodeInstances: every assignment's list, in order. */
  method CollectCandidates(ex: Execer, data: ExpData, ghost f: Frame, assigns: seq<Model.NodeAssignment>)
    returns (r: Result<seq<string>>)
    requires data == ExpDataOf(f)
    ensures r == Candidates(ex, f, assigns, 0, [])
  {
    var candidates := [];
    for i := 0 to |assigns|
      invariant Candidates(ex, f, assigns, i, candidates) == Candidates(ex, f, assigns, 0, [])
    {
      var ss := ex.returnStrings(assigns[i].expression, data);
      if ss.Err? {
        return Err(ss.error);
      }
      candidates := candidates + ss.value;
    }
    return Ok(candidates);
  }

  /** One router of addNextNodeInstances: its guard, its target's candidates, then one pending instance. */
  method AddOne(svc: Service.FlowService, data: ExpData, env: Env, f: Frame,
                item: Model.NodeRouter, now: int) returns (r: Result<Option<string>>)
    requires data == ExpDataOf(f) && env.faults == svc.repo.faults && env.now == now
    modifies svc.repo
    ensures var step := AddStep(env, f, item, old(svc.repo.db));
            svc.repo.db == step.db && r == step.id
  {
    if item.expression != "" {
      var allow := env.execer.returnBool(item.expression, data);
      if allow.Err? {
        return Err(allow.error);
      }
      if !allow.value {
        return Ok(None);
      }
    }
    var assigns := Tables.QueryNodeAssignments(svc.repo.db, item.targetNodeId);
    var candidates := CollectCandidates(env.execer, data, f, assigns);
    if candidates.Err? {
      return Err(candidates.error);
    }
    var id := svc.CreateNodeInstance(f.flowInstance.recordId, item.targetNodeId, f.input, candidates.value, now);
    if id.Err? {
      return Err(id.error);
    }
    return Ok(Some(id.value));
  }

  /** The router loop of addNextNodeInstances; an error stops it, keeping the instances already created. */
  method AddRouters(svc: Service.FlowService, env: Env, f: Frame, routers: seq<Model.NodeRouter>, now: int)
    returns (r: Result<seq<string>>)
    requires env.faults == svc.repo.faults && env.now == now
    modifies svc.repo
    ensures var fan := AddFrom(env, f, routers, 0, old(svc.repo.db), []);
            svc.repo.db == fan.db && r == fan.ids
  {
    var data := ExpDataOf(f);
    var ids := [];
    for i := 0 to |routers|
      invariant AddFrom(env, f, routers, i, svc.repo.db, ids) == AddFrom(env, f, routers, 0, old(svc.repo.db), [])
    {
      var one := AddOne(svc, data, env, f, routers[i], now);
      if one.Err? {
        return Err(one.error);
      }
      if one.value.Some? {
        ids := ids + [one.value.value];
      }
    }
    return Ok(ids);
  }

  class NodeRouter {
    var parent: NodeRouter?
    var engine: FlowEngine.Engine?
    var node: Model.Node
    var inputData: string
    var opts: Options
    var flowInstance: Model.FlowInstance
    var nodeInstance: Model.NodeInstance
    var stop: bool

    /** new(NodeRouter): no parent, no engine, not stopped. */
    constructor ()
      ensures parent == null && engine == null && !stop
    {
      parent := null;
      engine := null;
      node := NoNode();
      inputData := "";
      opts := Options(true, None, None);
      flowInstance := NoFlowInstance();
      nodeInstance := NoNodeInstance();
      stop := false;
    }

    /** What the router works on: the records Init loaded, its input, and its parent's node and option. */
    function FrameOf(): Frame
      reads this, parent
    {
      Frame(node, nodeInstance, flowInstance, inputData,
            if parent == null then None else Some(ParentView(parent.node, parent.opts.autoStart)))
    }

    /** The environment of a call of Next. */
    function EnvOf(processor: string, now: int): Env
      requires engine != null
      reads this
    {
      Env(engine.execer, engine.flowSvc.repo.faults, processor, now, opts)
    }

    /**
     * Init: the options applied to the defaults, then the node instance, its
     * flow instance and its node loaded, each missing one being NotFound.
     */
    method Init(engine: FlowEngine.Engine, nodeInstanceId: string, inputData: string, options: seq<RouterOption>)
      returns (err: Option<Error>)
      modifies this
      ensures this.engine == engine && this.inputData == inputData && opts == ApplyAll(options)
      ensures parent == old(parent) && stop == old(stop)
      ensures var s := InitSpec(engine.flowSvc.repo.db, nodeInstanceId);
              err == s.Failure() && (s.Ok? ==> nodeInstance == s.value.0 && flowInstance == s.value.1 && node == s.value.2)
    {
      var o := ApplyOptions(options);
      this.opts := o;
      this.inputData := inputData;
      this.engine := engine;
      var loaded := InitSpec(engine.flowSvc.repo.db, nodeInstanceId);
      if loaded.Err? {
        return Some(loaded.error);
      }
      nodeInstance, flowInstance, node := loaded.value.0, loaded.value.1, loaded.value.2;
      return None;
    }

    /** checkNextNodeType: whether the first router let through leads to a node of type `t`. */
    method CheckNextNodeType(t: NodeType) returns (r: Result<bool>)
      requires engine != null
      ensures r == Routing.CheckNextNodeType(engine.execer, FrameOf(), engine.flowSvc.repo.db, t)
    {
      var data := GetExpData(inputData, flowInstance, nodeInstance);
      var routers := Tables.QueryNodeRouters(engine.flowSvc.repo.db, node.recordId);
      if |routers| == 0 {
        return Ok(false);
      }
      r := CheckRouters(engine.execer, data, FrameOf(), engine.flowSvc.repo.db, routers, t);
    }

    /** addNextNodeInstances: one pending instance per router let through, in router order. */
    method AddNextNodeInstances(now: int, processor: string) returns (r: Result<seq<string>>)
      requires engine != null
      modifies engine.flowSvc.repo
      ensures var fan := Routing.AddNextNodeInstances(EnvOf(processor, now), FrameOf(), old(engine.flowSvc.repo.db));
              engine.flowSvc.repo.db == fan.db && r == fan.ids
    {
      var routers := Tables.QueryNodeRouters(engine.flowSvc.repo.db, node.recordId);
      if |routers| == 0 {
        return Ok([]);
      }
      r := AddRouters(engine.flowSvc, EnvOf(processor, now), FrameOf(), routers, now);
    }

    /** The end of a flow: status 9 and onFlowEnd when the flow ends; `ended` is the value `stop` takes. */
    method EndFlow(t: NodeType, ghost processor: string, ghost now: int)
      returns (ended: bool, err: Option<Error>, events: seq<Event>)
      requires engine != null && (t == EndEvent || t == TerminateEvent)
      modifies engine.flowSvc.repo
      ensures var r := Routing.EndFlow(EnvOf(processor, now), FrameOf(), t, old(engine.flowSvc.repo.db));
              engine.flowSvc.repo.db == r.db && err == r.err && events == r.events && ended == r.stop
    {
      var svc := engine.flowSvc;
      var isEnd := false;
      if t == EndEvent {
        var pending := Tables.CheckFlowInstanceTodo(svc.repo.db, flowInstance.recordId);
        if !pending {
          isEnd := true;
        }
      }
      if t == TerminateEvent {
        isEnd := true;
      }
      events := [];
      if isEnd {
        err := svc.DoneFlowInstance(flowInstance.recordId);
        if err.Some? {
          return false, err, [];
        }
        if opts.onFlowEnd.Some? {
          events := [FlowEndCalled(opts.onFlowEnd.value, flowInstance)];
        }
      }
      return isEnd, None, events;
    }

    /**
     * Next: the node's type, join suppression, then Proceed; `stop` is set
     * when the flow ended here or in a successor that broke the loop.
     */
    method Next(processor: string, now: int, depth: nat) returns (err: Option<Error>, events: seq<Event>)
      requires engine != null
      modifies this`stop, engine.flowSvc.repo
      decreases depth, 4
      ensures engine == old(engine)
      ensures parent == old(parent) && node == old(node) && inputData == old(inputData) && opts == old(opts)
      ensures flowInstance == old(flowInstance) && nodeInstance == old(nodeInstance)
      ensures var r := NextSpec(old(EnvOf(processor, now)), old(FrameOf()), old(engine.flowSvc.repo.db), depth);
              engine.flowSvc.repo.db == r.db && err == r.err && events == r.events && stop == (old(stop) || r.stop)
    {
      var t := ByName(node.typeCode);
      if t.None? {
        return Some(UnknownNodeType(node.typeCode)), [];
      }
      if t.value == UserTask && parent != null {
        var pt := ByName(parent.node.typeCode);
        if pt.None? {
          return Some(UnknownNodeType(parent.node.typeCode)), [];
        }
        if !(pt.value == StartEvent && parent.opts.autoStart) {
          events := [];
          if opts.onNextNode.Some? {
            var candidates := Tables.QueryNodeCandidates(engine.flowSvc.repo.db, nodeInstance.recordId);
            events := [NextNodeCalled(opts.onNextNode.value, node, nodeInstance, candidates)];
          }
          return None, events;
        }
      }
      var ended;
      ended, err, events := Proceed(t.value, processor, now, depth);
      if ended {
        stop := true;
      }
    }

    /**
     * Complete the node instance; hold a root user task in front of a
     * parallel gateway while the flow instance has pending node instances;
     * otherwise Route.
     */
    method Proceed(t: NodeType, processor: string, now: int, depth: nat)
      returns (ended: bool, err: Option<Error>, events: seq<Event>)
      requires engine != null
      modifies engine.flowSvc.repo
      decreases depth, 3
      ensures var r := Routing.Proceed(EnvOf(processor, now), FrameOf(), t, old(engine.flowSvc.repo.db), depth);
              engine.flowSvc.repo.db == r.db && err == r.err && events == r.events && ended == r.stop
    {
      var svc := engine.flowSvc;
      err := svc.DoneNodeInstance(nodeInstance.recordId, processor, inputData, now);
      if err.Some? {
        return false, err, [];
      }
      if t == UserTask && parent == null {
        var ok := CheckNextNodeType(ParallelGateway);
        if ok.Err? {
          return false, Some(ok.error), [];
        }
        if ok.value {
          var pending := Tables.CheckFlowInstanceTodo(svc.repo.db, flowInstance.recordId);
          if pending {
            return false, None, [];
          }
        }
      }
      ended, err, events := Route(t, processor, now, depth);
    }

    /** End the flow at an end or terminate event; otherwise create the successor instances and visit them. */
    method Route(t: NodeType, processor: string, now: int, depth: nat)
      returns (ended: bool, err: Option<Error>, events: seq<Event>)
      requires engine != null
      modifies engine.flowSvc.repo
      decreases depth, 2
      ensures var r := Routing.Route(EnvOf(processor, now), FrameOf(), t, old(engine.flowSvc.repo.db), depth);
              engine.flowSvc.repo.db == r.db && err == r.err && events == r.events && ended == r.stop
    {
      if t == EndEvent || t == TerminateEvent {
        ended, err, events := EndFlow(t, processor, now);
        return;
      }
      var next := AddNextNodeInstances(now, processor);
      if next.Err? {
        return false, Some(next.error), [];
      }
      err, events := VisitChildren(next.value, processor, now, depth);
      ended := false;
    }

    /**
     * The router of a successor instance: Init with no options, then this
     * router's options and this router as parent.
     */
    method NewChild(nodeInstanceId: string, ghost processor: string, ghost now: int)
      returns (child: NodeRouter, err: Option<Error>)
      requires engine != null
      ensures fresh(child) && child.engine == engine && !child.stop
      ensures var s := InitSpec(engine.flowSvc.repo.db, nodeInstanceId);
              && err == s.Failure()
              && (s.Ok? ==> child.EnvOf(processor, now) == EnvOf(processor, now)
                            && child.FrameOf() == ChildFrame(EnvOf(processor, now), FrameOf(), s.value))
    {
      ghost var s := InitSpec(engine.flowSvc.repo.db, nodeInstanceId);
      child := new NodeRouter();
      err := child.Init(engine, nodeInstanceId, inputData, []);
      if err.Some? {
        return;
      }
      child.opts := opts;
      child.parent := this;
    }

    /** The successor loop of Next: depth first, in creation order, until one of them ends the flow. */
    method VisitChildren(ids: seq<string>, processor: string, now: int, depth: nat)
      returns (err: Option<Error>, events: seq<Event>)
      requires engine != null
      modifies engine.flowSvc.repo
      decreases depth, 1
      ensures var r := ChildrenSpec(EnvOf(processor, now), FrameOf(), ids, 0, old(engine.flowSvc.repo.db), [], depth);
              engine.flowSvc.repo.db == r.db && err == r.err && events == r.events && !r.stop
    {
      ghost var env := EnvOf(processor, now);
      ghost var f := FrameOf();
      var repo := engine.flowSvc.repo;
      ghost var r := ChildrenSpec(env, f, ids, 0, repo.db, [], depth);
      events := [];
      for i := 0 to |ids|
        invariant engine != null && engine.flowSvc.repo == repo
        invariant EnvOf(processor, now) == env && FrameOf() == f
        invariant ChildrenSpec(env, f, ids, i, repo.db, events, depth) == r
      {
        if depth == 0 {
          return Some(DepthExceeded), events;
        }
        var childStop, e, childEvents := VisitChild(ids, i, processor, now, depth);
        assert events + [] == events;
        events := events + childEvents;
        if e.Some? {
          return e, events;
        }
        if childStop {
          return None, events;
        }
      }
      return None, events;
    }

    /**
     * next: a router for successor `i`, with this router's options and this
     * router as parent; says how the rest of the successor loop goes on.
     */
    method VisitChild(ids: seq<string>, i: nat, processor: string, now: int, depth: nat)
      returns (childStop: bool, err: Option<Error>, childEvents: seq<Event>)
      requires engine != null && i < |ids| && depth > 0
      modifies engine.flowSvc.repo
      decreases depth, 0
      ensures var s := InitSpec(old(engine.flowSvc.repo.db), ids[i]);
              var db := engine.flowSvc.repo.db;
              && (s.Err? ==> err == Some(s.error) && db == old(engine.flowSvc.repo.db) && childEvents == [] && !childStop)
              && (s.Ok? ==> var r := NextSpec(EnvOf(processor, now), ChildFrame(EnvOf(processor, now), FrameOf(), s.value), old(engine.flowSvc.repo.db), depth - 1);
                            db == r.db && err == r.err && childEvents == r.events && childStop == r.stop)
    {
      var child;
      child, err := NewChild(ids[i], processor, now);
      if err.Some? {
        return false, err, [];
      }
      err, childEvents := child.Next(processor, now, depth - 1);
      childStop := child.stop;
    }
  }
}
