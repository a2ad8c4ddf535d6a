/**
 * What one step of the node router (node_router.go) does, as functions of
 * a store snapshot: the options a router is built with, the frame it works
 * on, and the outcome of `Next` for that frame, its successors included.
 * The router class in module Router is proved to do what these say.
 */
module Routing {
  import opened Wrappers
  import opened Model
  import opened NodeTypes
  import opened Tables
  import Transitions
  import opened Expression

  /** A handler the caller registers; each call of it is recorded as an event. */
  type Handler = string

  /** The router options: whether a user task after the start event runs on, and the two handlers. */
  datatype Options = Options(autoStart: bool, onNextNode: Option<Handler>, onFlowEnd: Option<Handler>)

  /** OnNextNodeOption and OnFlowEndOption: each sets one handler. */
  datatype RouterOption = OnNextNodeOption(handler: Handler) | OnFlowEndOption(handler: Handler)

  function Apply(o: Options, opt: RouterOption): (r: Options)
    ensures r.autoStart == o.autoStart
    ensures opt.OnNextNodeOption? ==> r.onNextNode == Some(opt.handler) && r.onFlowEnd == o.onFlowEnd
    ensures opt.OnFlowEndOption? ==> r.onFlowEnd == Some(opt.handler) && r.onNextNode == o.onNextNode
  {
    match opt
    case OnNextNodeOption(h) => o.(onNextNode := Some(h))
    case OnFlowEndOption(h) => o.(onFlowEnd := Some(h))
  }

  /** The options Init builds: autoStart on, no handlers, then each option in order. */
  function ApplyAll(options: seq<RouterOption>): Options
    decreases |options|
  {
    if |options| == 0 then Options(true, None, None)
    else Apply(ApplyAll(options[..|options| - 1]), options[|options| - 1])
  }

  /** The handler the last option of that kind sets, if any. */
  function LastNextNode(options: seq<RouterOption>): Option<Handler>
    decreases |options|
  {
    if |options| == 0 then None
    else if options[|options| - 1].OnNextNodeOption? then Some(options[|options| - 1].handler)
    else LastNextNode(options[..|options| - 1])
  }

  function LastFlowEnd(options: seq<RouterOption>): Option<Handler>
    decreases |options|
  {
    if |options| == 0 then None
    else if options[|options| - 1].OnFlowEndOption? then Some(options[|options| - 1].handler)
    else LastFlowEnd(options[..|options| - 1])
  }

  /** A handler call: onNextNode with a node, its instance and candidates, or onFlowEnd with the flow instance. */
  datatype Event =
    | NextNodeCalled(handler: Handler, node: Node, instance: NodeInstance, candidates: seq<NodeCandidate>)
    | FlowEndCalled(handler: Handler, flowInstance: FlowInstance)

  /** What a router reads of its parent: the parent's node and the parent's autoStart option. */
  datatype ParentView = ParentView(node: Node, autoStart: bool)

  /** The fields Init loads into a router, and its parent. */
  datatype Frame = Frame(node: Node, nodeInstance: NodeInstance, flowInstance: FlowInstance, input: string,
                         parent: Option<ParentView>)

  /** The environment of a routing run: the evaluator, the store's faults, the caller and the clock. */
  datatype Env = Env(execer: Execer, faults: nat -> DbFault, processor: string, now: int, opts: Options)

  /** The store after a run, the handler calls it made, the error it returned, and whether it set `stop`. */
  datatype Run = Run(db: Db, events: seq<Event>, err: Option<Error>, stop: bool)

  /** Init's lookups: the node instance, then its flow instance, then its node; any missing is NotFound. */
  function InitSpec(db: Db, nodeInstanceId: string): (r: Result<(NodeInstance, FlowInstance, Node)>)
  {
    match GetNodeInstance(db, nodeInstanceId)
    case None => Err(NotFound)
    case Some(ni) =>
      match GetFlowInstance(db, ni.flowInstanceId)
      case None => Err(NotFound)
      case Some(fi) =>
        match GetNode(db, ni.nodeId)
        case None => Err(NotFound)
        case Some(n) => Ok((ni, fi, n))
  }

  /** The data context of a frame's expressions. */
  function ExpDataOf(f: Frame): ExpData {
    GetExpData(f.input, f.flowInstance, f.nodeInstance)
  }

  /** A router's guard: an empty expression always lets it through. */
  function Guard(ex: Execer, f: Frame, expression: string): (r: Result<bool>)
    ensures expression == "" ==> r == Ok(true)
    ensures expression != "" ==> r == ex.returnBool(expression, ExpDataOf(f))
  {
    if expression == "" then Ok(true) else ex.returnBool(expression, ExpDataOf(f))
  }

  /**
   * checkNextNodeType from router `i` on: a guard error is returned; a
   * router whose guard is false is skipped; the first router let through
   * decides when its target is missing (false) or of type `t` (true).
   */
  function CheckFrom(ex: Execer, f: Frame, db: Db, rs: seq<NodeRouter>, i: nat, t: NodeType): Result<bool>
    requires i <= |rs|
    decreases |rs| - i
  {
    if i == |rs| then Ok(false)
    else
      match Guard(ex, f, rs[i].expression)
      case Err(e) => Err(e)
      case Ok(allow) =>
        if !allow then CheckFrom(ex, f, db, rs, i + 1, t)
        else
          match GetNode(db, rs[i].targetNodeId)
          case None => Ok(false)
          case Some(n) => if n.typeCode == Name(t) then Ok(true) else CheckFrom(ex, f, db, rs, i + 1, t)
  }

  function CheckNextNodeType(ex: Execer, f: Frame, db: Db, t: NodeType): Result<bool> {
    CheckFrom(ex, f, db, QueryNodeRouters(db, f.node.recordId), 0, t)
  }

  /** The candidate lists of assignments `i` on, appended to `acc` in order; the first error wins. */
  function Candidates(ex: Execer, f: Frame, assigns: seq<NodeAssignment>, i: nat, acc: seq<string>)
    : Result<seq<string>>
    requires i <= |assigns|
    decreases |assigns| - i
  {
    if i == |assigns| then Ok(acc)
    else
      match ex.returnStrings(assigns[i].expression, ExpDataOf(f))
      case Err(e) => Err(e)
      case Ok(ss) => Candidates(ex, f, assigns, i + 1, acc + ss)
  }

  /** The store after creating successor instances, and their ids or the error that stopped it. */
  datatype Fanout = Fanout(db: Db, ids: Result<seq<string>>)

  /** The store after one router of addNextNodeInstances, and the instance it created, if any, or its error. */
  datatype Added = Added(db: Db, id: Result<Option<string>>)

  /**
   * One router of addNextNodeInstances: a router whose guard is false adds
   * nothing; one let through gets a pending instance of its target, with
   * the candidates of the target's assignments.
   */
  function AddStep(env: Env, f: Frame, item: NodeRouter, db: Db): Added {
    match Guard(env.execer, f, item.expression)
    case Err(e) => Added(db, Err(e))
    case Ok(allow) =>
      if !allow then Added(db, Ok(None))
      else
        match Candidates(env.execer, f, QueryNodeAssignments(db, item.targetNodeId), 0, [])
        case Err(e) => Added(db, Err(e))
        case Ok(cands) =>
          var o := Transitions.CreateNodeInstance(db, env.faults, f.flowInstance.recordId, item.targetNodeId,
                                                  f.input, cands, env.now);
          match o.result
          case Err(e) => Added(o.db, Err(e))
          case Ok(id) => Added(o.db, Ok(Some(id)))
  }

  /** addNextNodeInstances from router `i` on: the routers in order, each one's step followed by the rest. */
  function AddFrom(env: Env, f: Frame, rs: seq<NodeRouter>, i: nat, db: Db, ids: seq<string>): Fanout
    requires i <= |rs|
    decreases |rs| - i, 1
  {
    if i == |rs| then Fanout(db, Ok(ids))
    else AddAfter(env, f, rs, i, AddStep(env, f, rs[i], db), ids)
  }

  /** The rest of the loop once router `i` gave `a`: an error stops it, keeping what was created. */
  function AddAfter(env: Env, f: Frame, rs: seq<NodeRouter>, i: nat, a: Added, ids: seq<string>): Fanout
    requires i < |rs|
    decreases |rs| - i, 0
  {
    match a.id
    case Err(e) => Fanout(a.db, Err(e))
    case Ok(None) => AddFrom(env, f, rs, i + 1, a.db, ids)
    case Ok(Some(id)) => AddFrom(env, f, rs, i + 1, a.db, ids + [id])
  }

  function AddNextNodeInstances(env: Env, f: Frame, db: Db): Fanout {
    AddFrom(env, f, QueryNodeRouters(db, f.node.recordId), 0, db, [])
  }

  /** Join suppression: onNextNode, if set, sees the node, its instance and its candidates; nothing is written. */
  function Notify(env: Env, f: Frame, db: Db): Run {
    var events := if env.opts.onNextNode.Some? then
                    [NextNodeCalled(env.opts.onNextNode.value, f.node, f.nodeInstance,
                                    QueryNodeCandidates(db, f.nodeInstance.recordId))]
                  else [];
    Run(db, events, None, false)
  }

  /**
   * The end of a flow: an end event ends it only when no node instance is
   * pending, a terminate event always; ending writes status 9, sets `stop`
   * and calls onFlowEnd.
   */
  function EndFlow(env: Env, f: Frame, t: NodeType, db: Db): Run {
    var isEnd := t == TerminateEvent || !CheckFlowInstanceTodo(db, f.flowInstance.recordId);
    if !isEnd then Run(db, [], None, false)
    else
      var u := UpdateFlowInstanceStatus(db, env.faults, f.flowInstance.recordId, InstanceCompleted);
      if u.result.Err? then Run(u.db, [], Some(u.result.error), false)
      else Run(u.db, if env.opts.onFlowEnd.Some? then [FlowEndCalled(env.opts.onFlowEnd.value, f.flowInstance)] else [],
               None, true)
  }

  /** A user task reached from a parent that is not an auto-starting start event is not completed. */
  predicate Suppressed(f: Frame, pt: NodeType) {
    f.parent.Some? && !(pt == StartEvent && f.parent.value.autoStart)
  }

  /** The frame of a successor instance: Init's lookups, the same input, this frame's node as parent. */
  function ChildFrame(env: Env, f: Frame, loaded: (NodeInstance, FlowInstance, Node)): Frame {
    Frame(loaded.2, loaded.0, loaded.1, f.input, Some(ParentView(f.node, env.opts.autoStart)))
  }

  /**
   * Next: the node's type, then join suppression, then Proceed; the
   * recursion through the successors is bounded by `depth`, which the
   * source does not have.
   */
  function NextSpec(env: Env, f: Frame, db: Db, depth: nat): Run
    decreases depth, 3
  {
    match ByName(f.node.typeCode)
    case None => Run(db, [], Some(UnknownNodeType(f.node.typeCode)), false)
    case Some(t) =>
      if t == UserTask && f.parent.Some? then
        match ByName(f.parent.value.node.typeCode)
        case None => Run(db, [], Some(UnknownNodeType(f.parent.value.node.typeCode)), false)
        case Some(pt) => if Suppressed(f, pt) then Notify(env, f, db) else Proceed(env, f, t, db, depth)
      else Proceed(env, f, t, db, depth)
  }

  /**
   * Complete the node instance with the input as output; then a user task
   * without a parent waits when its next node is a parallel gateway and
   * the flow instance still has a pending node instance; otherwise Route.
   */
  function Proceed(env: Env, f: Frame, t: NodeType, db: Db, depth: nat): Run
    decreases depth, 2
  {
    var o := Transitions.DoneNodeInstance(db, env.faults, f.nodeInstance.recordId, env.processor, f.input, env.now);
    if o.result.Err? then Run(o.db, [], Some(o.result.error), false)
    else if t == UserTask && f.parent.None? then
      match CheckNextNodeType(env.execer, f, o.db, ParallelGateway)
      case Err(e) => Run(o.db, [], Some(e), false)
      case Ok(ok) =>
        if ok && CheckFlowInstanceTodo(o.db, f.flowInstance.recordId) then Run(o.db, [], None, false)
        else Route(env, f, t, o.db, depth)
    else Route(env, f, t, o.db, depth)
  }

  /** After the node instance is done: end the flow, or create the successor instances and visit them. */
  function Route(env: Env, f: Frame, t: NodeType, db: Db, depth: nat): Run
    decreases depth, 1
  {
    if t == EndEvent || t == TerminateEvent then EndFlow(env, f, t, db)
    else
      var fan := AddNextNodeInstances(env, f, db);
      if fan.ids.Err? then Run(fan.db, [], Some(fan.ids.error), false)
      else ChildrenSpec(env, f, fan.ids.value, 0, fan.db, [], depth)
  }

  /**
   * The successors from `i` on, depth first: an error, also from Init, is
   * returned; the loop breaks after the first successor that set `stop`.
   * The parent's own `stop` stays unset.
   */
  function ChildrenSpec(env: Env, f: Frame, ids: seq<string>, i: nat, db: Db, events: seq<Event>, depth: nat): Run
    requires i <= |ids|
    decreases depth, 0, |ids| - i, 1
  {
    if i == |ids| then Run(db, events, None, false)
    else if depth == 0 then Run(db, events, Some(DepthExceeded), false)
    else
      match InitSpec(db, ids[i])
      case Err(e) => Run(db, events, Some(e), false)
      case Ok(loaded) => ChildAfter(env, f, ids, i, NextSpec(env, ChildFrame(env, f, loaded), db, depth - 1), events, depth)
  }

  /** The rest of the successor loop once successor `i` ran as `r`: its error is returned, its `stop` breaks the loop. */
  function ChildAfter(env: Env, f: Frame, ids: seq<string>, i: nat, r: Run, events: seq<Event>, depth: nat): Run
    requires i < |ids|
    decreases depth, 0, |ids| - i, 0
  {
    if r.err.Some? then Run(r.db, events + r.events, r.err, false)
    else if r.stop then Run(r.db, events + r.events, None, false)
    else ChildrenSpec(env, f, ids, i + 1, r.db, events + r.events, depth)
  }
}
