/**
 * The store behind the repository (repository/flow.go) as in-memory tables.
 *
 * A `Db` is a snapshot of every table the engine uses, each a sequence in
 * insertion order (a row's position stands for its autoincrement id), plus
 * two counters: the position of the UUID supply and the number of write
 * operations attempted so far. Queries are functions of a snapshot; every
 * write operation is a function from a snapshot and a fault oracle to an
 * `Outcome`: the reported result and the next snapshot.
 */
module Tables {
  import opened Wrappers
  import opened Model
  import opened Operating
  import Text

  datatype Db = Db(
    flows: seq<Flow>,
    nodes: seq<Node>,
    routers: seq<NodeRouter>,
    assignments: seq<NodeAssignment>,
    properties: seq<NodeProperty>,
    forms: seq<Form>,
    fields: seq<FormField>,
    options: seq<FieldOption>,
    fieldProperties: seq<FieldProperty>,
    validations: seq<FieldValidation>,
    flowInstances: seq<FlowInstance>,
    nodeInstances: seq<NodeInstance>,
    candidates: seq<NodeCandidate>,
    timings: seq<NodeTiming>,
    uuidNext: nat,  // util.UUID has handed out Uuid(0) .. Uuid(uuidNext - 1)
    writes: nat)    // write operations attempted so far; indexes the fault oracle

  /** A store with no rows. */
  function EmptyDb(): Db {
    Db([], [], [], [], [], [], [], [], [], [], [], [], [], [], 0, 0)
  }

  // ---------------------------------------------------------------------
  // Generic table helpers
  // ---------------------------------------------------------------------

  /** The rows of `s` that satisfy `p`, in table order. */
  function Filter<T(!new)>(s: seq<T>, p: T -> bool): (r: seq<T>)
    ensures |r| <= |s|
    ensures forall x :: x in r <==> x in s && p(x)
    ensures r == [] <==> forall x :: x in s ==> !p(x)
  {
    if |s| == 0 then []
    else
      assert forall x :: x in s <==> x == s[0] || x in s[1..];
      (if p(s[0]) then [s[0]] else []) + Filter(s[1..], p)
  }

  /** The position of the first row of `s` that satisfies `p`. */
  function FirstIndex<T>(s: seq<T>, p: T -> bool): (r: Option<nat>)
    ensures r.Some? ==> r.value < |s| && p(s[r.value])
    ensures r.Some? ==> forall j :: 0 <= j < r.value ==> !p(s[j])
    ensures r.None? <==> forall j :: 0 <= j < |s| ==> !p(s[j])
  {
    if |s| == 0 then None
    else if p(s[0]) then Some(0)
    else match FirstIndex(s[1..], p)
      case None => None
      case Some(k) => Some(k + 1)
  }

  /** The first row of `s` that satisfies `p` (a `SELECT ... LIMIT 1` without ORDER BY). */
  function First<T(!new)>(s: seq<T>, p: T -> bool): (r: Option<T>)
    ensures r.Some? ==> r.value in s && p(r.value)
    ensures r.None? <==> forall x :: x in s ==> !p(x)
  {
    match FirstIndex(s, p)
    case None => None
    case Some(k) => Some(s[k])
  }

  /** The positions below `n` that satisfy `p`, highest first (`ORDER BY id DESC`). */
  function DescIndices(n: nat, p: nat -> bool): (r: seq<nat>)
    ensures forall k :: 0 <= k < |r| ==> r[k] < n && p(r[k])
    ensures forall i: nat :: i < n && p(i) ==> i in r
    ensures forall j, k :: 0 <= j < k < |r| ==> r[j] > r[k]
  {
    if n == 0 then []
    else (if p(n - 1) then [n - 1] else []) + DescIndices(n - 1, p)
  }

  /** How many of `n` rows `LIMIT offset, count` returns: `count`, or what is left after `offset`. */
  function WindowLength(n: nat, offset: nat, count: nat): (len: nat)
    ensures len <= count && (len > 0 ==> offset + len <= n)
    ensures offset >= n ==> len == 0
  {
    if offset >= n then 0 else if offset + count <= n then count else n - offset
  }

  /** `LIMIT offset, count`: the window of `s` starting at `offset`, at most `count` long. */
  function Window<T>(s: seq<T>, offset: nat, count: nat): (r: seq<T>)
    ensures |r| <= count
    ensures |r| == WindowLength(|s|, offset, count)
    ensures offset >= |s| ==> r == []
    ensures forall k :: 0 <= k < |r| ==> offset + k < |s| && r[k] == s[offset + k]
  {
    if offset >= |s| then []
    else if offset + count <= |s| then s[offset..offset + count]
    else s[offset..]
  }

  // ---------------------------------------------------------------------
  // Lookups
  // ---------------------------------------------------------------------

  /** GetNode: the live node with this record id. */
  function GetNode(db: Db, recordId: string): (r: Option<Node>)
    ensures r.Some? ==> r.value in db.nodes && r.value.recordId == recordId && r.value.deleted == 0
    ensures r.None? <==> forall n :: n in db.nodes ==> !(n.recordId == recordId && n.deleted == 0)
  {
    LiveNode(db.nodes, recordId)
  }

  /** The first live node of `s` with this record id. */
  function LiveNode(s: seq<Node>, recordId: string): (r: Option<Node>)
    ensures r.Some? ==> r.value in s && r.value.recordId == recordId && r.value.deleted == 0
    ensures r.None? <==> forall n :: n in s ==> !(n.recordId == recordId && n.deleted == 0)
  {
    if |s| == 0 then None
    else if s[0].recordId == recordId && s[0].deleted == 0 then Some(s[0])
    else
      assert forall x :: x in s <==> x == s[0] || x in s[1..];
      LiveNode(s[1..], recordId)
  }

  /** GetNodeByCode: the live node of the flow with this code. */
  function GetNodeByCode(db: Db, flowId: string, code: string): (r: Option<Node>)
    ensures r.Some? ==> r.value in db.nodes && r.value.flowId == flowId && r.value.code == code && r.value.deleted == 0
    ensures r.None? <==> forall n :: n in db.nodes ==> !(n.flowId == flowId && n.code == code && n.deleted == 0)
  {
    First(db.nodes, (n: Node) => n.flowId == flowId && n.code == code && n.deleted == 0)
  }

  /** GetFlowInstance: the live flow instance with this record id. */
  function GetFlowInstance(db: Db, recordId: string): (r: Option<FlowInstance>)
    ensures r.Some? ==> r.value in db.flowInstances && r.value.recordId == recordId && r.value.deleted == 0
    ensures r.None? <==> forall f :: f in db.flowInstances ==> !(f.recordId == recordId && f.deleted == 0)
  {
    LiveFlowInstance(db.flowInstances, recordId)
  }

  /** The first live flow instance of `s` with this record id. */
  function LiveFlowInstance(s: seq<FlowInstance>, recordId: string): (r: Option<FlowInstance>)
    ensures r.Some? ==> r.value in s && r.value.recordId == recordId && r.value.deleted == 0
    ensures r.None? <==> forall f :: f in s ==> !(f.recordId == recordId && f.deleted == 0)
  {
    if |s| == 0 then None
    else if s[0].recordId == recordId && s[0].deleted == 0 then Some(s[0])
    else
      assert forall x :: x in s <==> x == s[0] || x in s[1..];
      LiveFlowInstance(s[1..], recordId)
  }

  /** GetNodeInstance: the live node instance with this record id, as its position. */
  function NodeInstanceIndex(db: Db, recordId: string): (r: Option<nat>)
    ensures r.Some? ==> r.value < |db.nodeInstances| && db.nodeInstances[r.value].recordId == recordId
                        && db.nodeInstances[r.value].deleted == 0
    ensures r.Some? ==> forall j :: 0 <= j < r.value ==>
                          !(db.nodeInstances[j].recordId == recordId && db.nodeInstances[j].deleted == 0)
    ensures r.None? <==> forall j :: 0 <= j < |db.nodeInstances| ==>
                           !(db.nodeInstances[j].recordId == recordId && db.nodeInstances[j].deleted == 0)
  {
    LiveNodeInstanceIndex(db.nodeInstances, recordId)
  }

  /** The position of the first live node instance of `s` with this record id. */
  function LiveNodeInstanceIndex(s: seq<NodeInstance>, recordId: string): (r: Option<nat>)
    ensures r.Some? ==> r.value < |s| && s[r.value].recordId == recordId && s[r.value].deleted == 0
    ensures r.Some? ==> forall j :: 0 <= j < r.value ==> !(s[j].recordId == recordId && s[j].deleted == 0)
    ensures r.None? <==> forall j :: 0 <= j < |s| ==> !(s[j].recordId == recordId && s[j].deleted == 0)
  {
    if |s| == 0 then None
    else if s[0].recordId == recordId && s[0].deleted == 0 then Some(0)
    else match LiveNodeInstanceIndex(s[1..], recordId)
      case None => None
      case Some(k) => Some(k + 1)
  }

  /** GetNodeInstance: the live node instance with this record id. */
  function GetNodeInstance(db: Db, recordId: string): (r: Option<NodeInstance>)
    ensures r.Some? ==> r.value in db.nodeInstances && r.value.recordId == recordId && r.value.deleted == 0
    ensures r.None? <==> forall n :: n in db.nodeInstances ==> !(n.recordId == recordId && n.deleted == 0)
  {
    match NodeInstanceIndex(db, recordId)
    case None => None
    case Some(k) => Some(db.nodeInstances[k])
  }

  /** A flow GetFlowByCode may return: a live, enabled main flow with this code. */
  predicate ActiveWithCode(f: Flow, code: string) {
    f.flag == 1 && f.status == FlowEnabled && f.code == code && f.deleted == 0
  }

  /** The row of highest version (the earliest such row on a tie). */
  function LatestVersion(s: seq<Flow>): (r: Option<Flow>)
    ensures r.Some? <==> |s| > 0
    ensures r.Some? ==> r.value in s && forall f :: f in s ==> f.version <= r.value.version
  {
    if |s| == 0 then None
    else
      assert forall f :: f in s <==> f == s[0] || f in s[1..];
      match LatestVersion(s[1..])
      case None => Some(s[0])
      case Some(g) => if g.version > s[0].version then Some(g) else Some(s[0])
  }

  /** GetFlowByCode: the active flow with this code and the highest version, or none. */
  function GetFlowByCode(db: Db, code: string): (r: Option<Flow>)
    ensures r.Some? ==> r.value in db.flows && ActiveWithCode(r.value, code)
    ensures r.Some? ==> forall f :: f in db.flows && ActiveWithCode(f, code) ==> f.version <= r.value.version
    ensures r.None? <==> forall f :: f in db.flows ==> !ActiveWithCode(f, code)
  {
    LatestVersion(Filter(db.flows, (f: Flow) => ActiveWithCode(f, code)))
  }

  // ---------------------------------------------------------------------
  // Filters
  // ---------------------------------------------------------------------

  /** CheckNodeCandidate: whether the user is a live candidate of the node instance. */
  function CheckNodeCandidate(db: Db, nodeInstanceId: string, userId: string): (b: bool)
    ensures b <==> exists c :: c in db.candidates && c.nodeInstanceId == nodeInstanceId
                                && c.candidateId == userId && c.deleted == 0
  {
    var matching := Filter(db.candidates, (c: NodeCandidate) =>
      c.nodeInstanceId == nodeInstanceId && c.candidateId == userId && c.deleted == 0);
    assert |matching| > 0 ==> matching[0] in matching;
    |matching| > 0
  }

  /** CheckFlowInstanceTodo: whether the flow instance still has a live pending node instance. */
  function CheckFlowInstanceTodo(db: Db, flowInstanceId: string): (b: bool)
    ensures b <==> exists n :: n in db.nodeInstances && n.status == NodePending
                                && n.flowInstanceId == flowInstanceId && n.deleted == 0
  {
    HasPending(db.nodeInstances, flowInstanceId)
  }

  /** Whether `s` holds a live pending node instance of the flow instance. */
  function HasPending(s: seq<NodeInstance>, flowInstanceId: string): (b: bool)
    ensures b <==> exists n :: n in s && n.status == NodePending && n.flowInstanceId == flowInstanceId && n.deleted == 0
  {
    if |s| == 0 then false
    else
      assert forall x :: x in s <==> x == s[0] || x in s[1..];
      (s[0].status == NodePending && s[0].flowInstanceId == flowInstanceId && s[0].deleted == 0)
      || HasPending(s[1..], flowInstanceId)
  }

  /** QueryNodeCandidates: the live candidate rows of a node instance, in table order. */
  function QueryNodeCandidates(db: Db, nodeInstanceId: string): (r: seq<NodeCandidate>)
    ensures forall c :: c in r <==> c in db.candidates && c.nodeInstanceId == nodeInstanceId && c.deleted == 0
  {
    LiveCandidates(db.candidates, nodeInstanceId)
  }

  /** The live candidate rows of `s` for the node instance, in order. */
  function LiveCandidates(s: seq<NodeCandidate>, nodeInstanceId: string): (r: seq<NodeCandidate>)
    ensures forall c :: c in r <==> c in s && c.nodeInstanceId == nodeInstanceId && c.deleted == 0
    ensures r == [] <==> forall c :: c in s ==> !(c.nodeInstanceId == nodeInstanceId && c.deleted == 0)
  {
    if |s| == 0 then []
    else
      assert forall x :: x in s <==> x == s[0] || x in s[1..];
      (if s[0].nodeInstanceId == nodeInstanceId && s[0].deleted == 0 then [s[0]] else [])
      + LiveCandidates(s[1..], nodeInstanceId)
  }

  /** QueryNodeProperty: the live properties of a node, in table order. */
  function QueryNodeProperty(db: Db, nodeId: string): (r: seq<NodeProperty>)
    ensures forall p :: p in r <==> p in db.properties && p.nodeId == nodeId && p.deleted == 0
  {
    Filter(db.properties, (p: NodeProperty) => p.nodeId == nodeId && p.deleted == 0)
  }

  /** QueryNodeRouters: the live routers leaving a node, in table order. */
  function QueryNodeRouters(db: Db, sourceNodeId: string): (r: seq<NodeRouter>)
    ensures forall x :: x in r <==> x in db.routers && x.sourceNodeId == sourceNodeId && x.deleted == 0
  {
    LiveRouters(db.routers, sourceNodeId)
  }

  /** The live routers of `s` leaving the node, in order. */
  function LiveRouters(s: seq<NodeRouter>, sourceNodeId: string): (r: seq<NodeRouter>)
    ensures forall x :: x in r <==> x in s && x.sourceNodeId == sourceNodeId && x.deleted == 0
    ensures r == [] <==> forall x :: x in s ==> !(x.sourceNodeId == sourceNodeId && x.deleted == 0)
  {
    if |s| == 0 then []
    else
      assert forall x :: x in s <==> x == s[0] || x in s[1..];
      (if s[0].sourceNodeId == sourceNodeId && s[0].deleted == 0 then [s[0]] else [])
      + LiveRouters(s[1..], sourceNodeId)
  }

  /** QueryNodeAssignments: the live assignment expressions of a node, in table order. */
  function QueryNodeAssignments(db: Db, nodeId: string): (r: seq<NodeAssignment>)
    ensures forall a :: a in r <==> a in db.assignments && a.nodeId == nodeId && a.deleted == 0
  {
    LiveAssignments(db.assignments, nodeId)
  }

  /** The live assignment expressions of `s` for the node, in order. */
  function LiveAssignments(s: seq<NodeAssignment>, nodeId: string): (r: seq<NodeAssignment>)
    ensures forall a :: a in r <==> a in s && a.nodeId == nodeId && a.deleted == 0
    ensures r == [] <==> forall a :: a in s ==> !(a.nodeId == nodeId && a.deleted == 0)
  {
    if |s| == 0 then []
    else
      assert forall x :: x in s <==> x == s[0] || x in s[1..];
      (if s[0].nodeId == nodeId && s[0].deleted == 0 then [s[0]] else [])
      + LiveAssignments(s[1..], nodeId)
  }

  /** A live main flow with this code exists under this record id. */
  predicate IsMainFlowWithCode(db: Db, flowId: string, code: string) {
    exists f :: f in db.flows && f.deleted == 0 && f.flag == 1 && f.code == code && f.recordId == flowId
  }

  /** A live main flow of this type exists under this record id. */
  predicate IsMainFlowOfType(db: Db, flowId: string, typeCode: string) {
    exists f :: f in db.flows && f.deleted == 0 && f.flag == 1 && f.typeCode == typeCode && f.recordId == flowId
  }

  /** The user completed a node instance of this flow instance. */
  predicate ProcessedBy(db: Db, flowInstanceId: string, userId: string) {
    exists n :: n in db.nodeInstances && n.deleted == 0 && n.status == NodeDone
                && n.processor == userId && n.flowInstanceId == flowInstanceId
  }

  /** The flow instances QueryDoneIDs selects, in table order. */
  function DoneInstances(db: Db, flowCode: string, userId: string): (r: seq<FlowInstance>)
    ensures forall fi :: fi in r <==>
              fi in db.flowInstances && fi.deleted == 0 && IsMainFlowWithCode(db, fi.flowId, flowCode)
              && ProcessedBy(db, fi.recordId, userId)
  {
    Filter(db.flowInstances, (fi: FlowInstance) =>
      fi.deleted == 0 && IsMainFlowWithCode(db, fi.flowId, flowCode) && ProcessedBy(db, fi.recordId, userId))
  }

  // ---------------------------------------------------------------------
  // Paged flow listing
  // ---------------------------------------------------------------------

  datatype FlowQueryParam = FlowQueryParam(code: string, name: string, typeCode: string, status: int)

  /** The columns QueryAllFlowPage selects; `id` is the row's autoincrement id (position + 1). */
  datatype FlowQueryResult = FlowQueryResult(
    id: nat, recordId: string, created: int, code: string, name: string, version: int)

  datatype Page = Page(total: nat, items: seq<FlowQueryResult>)

  /** The WHERE clause of QueryAllFlowPage; `LIKE '%x%'` is substring search. */
  predicate PageMatches(f: Flow, params: FlowQueryParam) {
    && f.deleted == 0 && f.flag == 1
    && (params.code != "" ==> Text.Contains(f.code, params.code))
    && (params.name != "" ==> Text.Contains(f.name, params.name))
    && (params.typeCode != "" ==> f.typeCode == params.typeCode)
    && (params.status > 0 ==> f.status == params.status)
  }

  /** The positions of the matching flows, newest first. */
  function PageIndices(db: Db, params: FlowQueryParam): (r: seq<nat>)
    ensures forall k :: 0 <= k < |r| ==> r[k] < |db.flows| && PageMatches(db.flows[r[k]], params)
    ensures forall i: nat :: i < |db.flows| && PageMatches(db.flows[i], params) ==> i in r
    ensures forall j, k :: 0 <= j < k < |r| ==> r[j] > r[k]
  {
    DescIndices(|db.flows|, (i: nat) => i < |db.flows| && PageMatches(db.flows[i], params))
  }

  function ToQueryResult(f: Flow, position: nat): FlowQueryResult {
    FlowQueryResult(position + 1, f.recordId, f.created, f.code, f.name, f.version)
  }

  /** The columns QueryAllFlowPage reads from the rows at these positions. */
  function PageItems(db: Db, sel: seq<nat>): (r: seq<FlowQueryResult>)
    requires forall k :: 0 <= k < |sel| ==> sel[k] < |db.flows|
    ensures |r| == |sel|
    ensures forall k :: 0 <= k < |sel| ==> r[k] == ToQueryResult(db.flows[sel[k]], sel[k])
  {
    seq(|sel|, k requires 0 <= k < |sel| => ToQueryResult(db.flows[sel[k]], sel[k]))
  }

  /** The positions on the requested page: all of them unless both page index and page size are positive. */
  function PageWindow(idx: seq<nat>, pageIndex: nat, pageSize: nat): (sel: seq<nat>)
    ensures pageIndex > 0 && pageSize > 0 ==> |sel| <= pageSize
    ensures pageIndex > 0 && pageSize > 0 ==>
              var offset := (pageIndex - 1) * pageSize;
              && |sel| == WindowLength(|idx|, offset, pageSize)
              && forall k :: 0 <= k < |sel| ==> offset + k < |idx| && sel[k] == idx[offset + k]
    ensures !(pageIndex > 0 && pageSize > 0) ==> sel == idx
    ensures forall k :: 0 <= k < |sel| ==> sel[k] in idx
    ensures (forall j, k :: 0 <= j < k < |idx| ==> idx[j] > idx[k]) ==>
              forall j, k :: 0 <= j < k < |sel| ==> sel[j] > sel[k]
  {
    if pageIndex > 0 && pageSize > 0 then
      var offset := (pageIndex - 1) * pageSize;
      var sel := Window(idx, offset, pageSize);
      assert forall k :: 0 <= k < |sel| ==> sel[k] == idx[offset + k];
      sel
    else idx
  }

  /**
   * QueryAllFlowPage: the number of matching flows and, newest first, the
   * requested page of them; the page window applies only when both the page
   * index and the page size are positive.
   */
  function QueryAllFlowPage(db: Db, params: FlowQueryParam, pageIndex: nat, pageSize: nat): (r: Page)
    ensures r.total == |PageIndices(db, params)|
    ensures r.total == 0 ==> r.items == []
    ensures pageIndex > 0 && pageSize > 0 ==> |r.items| <= pageSize
    ensures !(pageIndex > 0 && pageSize > 0) ==> |r.items| == r.total
    ensures forall k :: 0 <= k < |r.items| ==>
              exists i :: 0 <= i < |db.flows| && PageMatches(db.flows[i], params)
                          && r.items[k] == ToQueryResult(db.flows[i], i)
    ensures forall j, k :: 0 <= j < k < |r.items| ==> r.items[j].id > r.items[k].id
  {
    var idx := PageIndices(db, params);
    if |idx| == 0 then Page(0, [])
    else
      var sel := PageWindow(idx, pageIndex, pageSize);
      assert forall k :: 0 <= k < |sel| ==> sel[k] < |db.flows| && PageMatches(db.flows[sel[k]], params);
      Page(|idx|, PageItems(db, sel))
  }

  /**
   * The page is the window `LIMIT (pageIndex-1)*pageSize, pageSize` of the
   * matching flows, newest first, when both are positive, and all of them
   * otherwise.
   */
  lemma QueryAllFlowPageWindow(db: Db, params: FlowQueryParam, pageIndex: nat, pageSize: nat)
    ensures var r := QueryAllFlowPage(db, params, pageIndex, pageSize);
            var idx := PageIndices(db, params);
            var offset := (pageIndex - 1) * pageSize;
            pageIndex > 0 && pageSize > 0 ==>
              && |r.items| == WindowLength(|idx|, offset, pageSize)
              && forall k :: 0 <= k < |r.items| ==>
                   offset + k < |idx| && r.items[k] == ToQueryResult(db.flows[idx[offset + k]], idx[offset + k])
    ensures var r := QueryAllFlowPage(db, params, pageIndex, pageSize);
            var idx := PageIndices(db, params);
            !(pageIndex > 0 && pageSize > 0) ==>
              && |r.items| == |idx|
              && forall k :: 0 <= k < |idx| ==> r.items[k] == ToQueryResult(db.flows[idx[k]], idx[k])
  {
    var idx := PageIndices(db, params);
    if |idx| > 0 {
      var sel := PageWindow(idx, pageIndex, pageSize);
      assert QueryAllFlowPage(db, params, pageIndex, pageSize).items == PageItems(db, sel);
    }
  }

  /** The count is zero exactly when no flow matches the filter. */
  lemma PageTotalZero(db: Db, params: FlowQueryParam, pageIndex: nat, pageSize: nat)
    ensures QueryAllFlowPage(db, params, pageIndex, pageSize).total == 0
            <==> forall f :: f in db.flows ==> !PageMatches(f, params)
  {
    var idx := PageIndices(db, params);
    if |idx| == 0 {
      forall f | f in db.flows ensures !PageMatches(f, params) {
        var i :| 0 <= i < |db.flows| && db.flows[i] == f;
        assert i !in idx;
      }
    } else {
      assert db.flows[idx[0]] in db.flows;
    }
  }

  // ---------------------------------------------------------------------
  // To-do listing
  // ---------------------------------------------------------------------

  /** One row of QueryTodo; the form columns come from a LEFT JOIN and may be NULL. */
  datatype TodoResult = TodoResult(
    recordId: string,
    flowInstanceId: string,
    flowName: string,
    nodeId: string,
    nodeCode: string,
    nodeName: string,
    inputData: string,
    launcher: string,
    launchTime: int,
    formType: Option<string>,
    formData: Option<string>)

  /** The flow-scope filter: the type code when given, otherwise the flow code when given. */
  predicate InScope(db: Db, flowId: string, typeCode: string, flowCode: string) {
    if typeCode != "" then IsMainFlowOfType(db, flowId, typeCode)
    else if flowCode != "" then IsMainFlowWithCode(db, flowId, flowCode)
    else true
  }

  /** The flow instance a pending node instance joins: live, in progress and in scope. */
  function JoinedFlowInstance(db: Db, ni: NodeInstance, typeCode: string, flowCode: string): (r: Option<FlowInstance>)
    ensures r.Some? ==> r.value in db.flowInstances && r.value.recordId == ni.flowInstanceId
  {
    First(db.flowInstances, (fi: FlowInstance) =>
      fi.recordId == ni.flowInstanceId && fi.deleted == ni.deleted && fi.status == InstanceRunning
      && InScope(db, fi.flowId, typeCode, flowCode))
  }

  /** The node instance at position `i` is a to-do of the user. */
  predicate TodoQualifies(db: Db, i: nat, typeCode: string, flowCode: string, userId: string) {
    && i < |db.nodeInstances|
    && var ni := db.nodeInstances[i];
    && ni.deleted == 0 && ni.status == NodePending
    && JoinedFlowInstance(db, ni, typeCode, flowCode).Some?
    && exists c :: c in db.candidates && c.deleted == 0 && c.candidateId == userId && c.nodeInstanceId == ni.recordId
  }

  /** The positions of the user's to-dos, newest first. */
  function TodoIndices(db: Db, typeCode: string, flowCode: string, userId: string): (r: seq<nat>)
    ensures forall k :: 0 <= k < |r| ==> TodoQualifies(db, r[k], typeCode, flowCode, userId)
    ensures forall i: nat :: TodoQualifies(db, i, typeCode, flowCode, userId) ==> i in r
    ensures forall j, k :: 0 <= j < k < |r| ==> r[j] > r[k]
  {
    DescIndices(|db.nodeInstances|, (i: nat) => TodoQualifies(db, i, typeCode, flowCode, userId))
  }

  /**
   * The joined row of a to-do. The node and flow columns are scanned into
   * non-nullable strings, so a to-do whose node or flow row is missing
   * makes the scan fail (none here).
   */
  function TodoRow(db: Db, i: nat, typeCode: string, flowCode: string, userId: string): (r: Option<TodoResult>)
    requires TodoQualifies(db, i, typeCode, flowCode, userId)
    ensures r.Some? ==> r.value.recordId == db.nodeInstances[i].recordId
                        && r.value.flowInstanceId == db.nodeInstances[i].flowInstanceId
  {
    var ni := db.nodeInstances[i];
    var fi := JoinedFlowInstance(db, ni, typeCode, flowCode).value;
    match First(db.nodes, (n: Node) => n.recordId == ni.nodeId && n.deleted == ni.deleted)
    case None => None
    case Some(n) =>
      match First(db.flows, (fw: Flow) => fw.recordId == n.flowId && fw.deleted == n.deleted)
      case None => None
      case Some(fw) =>
        var form := First(db.forms, (f: Form) => f.recordId == n.formId && f.deleted == n.deleted);
        Some(TodoResult(ni.recordId, ni.flowInstanceId, fw.name, ni.nodeId, n.code, n.name, ni.inputData,
                        fi.launcher, fi.launchTime,
                        if form.Some? then Some(form.value.typeCode) else None,
                        if form.Some? then Some(form.value.data) else None))
  }

  /** The joined rows of the selected to-dos, or a scan failure. */
  function TodoRows(db: Db, sel: seq<nat>, typeCode: string, flowCode: string, userId: string)
    : (r: Result<seq<TodoResult>>)
    requires forall k :: 0 <= k < |sel| ==> sel[k] < |db.nodeInstances|
    requires forall k :: 0 <= k < |sel| ==> TodoQualifies(db, sel[k], typeCode, flowCode, userId)
    ensures r.Ok? ==> |r.value| == |sel|
    ensures r.Ok? ==> forall k :: 0 <= k < |sel| ==> r.value[k].recordId == db.nodeInstances[sel[k]].recordId
  {
    if |sel| == 0 then Ok([])
    else match TodoRow(db, sel[0], typeCode, flowCode, userId)
      case None => Err(DbFailed("QueryTodo: NULL in a non-nullable column"))
      case Some(row) =>
        match TodoRows(db, sel[1..], typeCode, flowCode, userId)
        case Err(e) => Err(e)
        case Ok(rest) => Ok([row] + rest)
  }

  /**
   * QueryTodo: the user's pending node instances of in-progress flow
   * instances, newest first, at most `limit` of them. A negative limit is
   * a syntax error of the generated `LIMIT` clause.
   */
  function QueryTodo(db: Db, typeCode: string, flowCode: string, userId: string, limit: int)
    : (r: Result<seq<TodoResult>>)
    ensures limit < 0 ==> r.Err?
    ensures r.Ok? ==> |r.value| <= limit
    ensures r.Ok? ==> forall k :: 0 <= k < |r.value| ==>
              exists i: nat :: TodoQualifies(db, i, typeCode, flowCode, userId)
                               && r.value[k].recordId == db.nodeInstances[i].recordId
  {
    if limit < 0 then Err(DbFailed("QueryTodo: negative LIMIT"))
    else
      var idx := TodoIndices(db, typeCode, flowCode, userId);
      var sel := if limit < |idx| then idx[..limit] else idx;
      assert forall k :: 0 <= k < |sel| ==> sel[k] == idx[k];
      TodoRows(db, sel, typeCode, flowCode, userId)
  }

  // ---------------------------------------------------------------------
  // Writes
  // ---------------------------------------------------------------------

  /**
   * What the database does to the write operation with this index: nothing
   * goes wrong, or beginning the transaction fails, or its statement number
   * `step` fails (and the rollback after it fails or not), or the commit fails.
   */
  datatype DbFault = NoFault | BeginFails | StepFails(step: nat, rollbackFails: bool) | CommitFails

  /** A transaction of `steps` statements commits under this fault. */
  predicate Commits(f: DbFault, steps: nat) {
    f.NoFault? || (f.StepFails? && f.step >= steps)
  }

  /** The reported result of a write operation and the snapshot after it. */
  datatype Outcome<+T> = Outcome(result: Result<T>, db: Db)

  /** Counts a write operation. */
  function Tick(db: Db): (r: Db)
    ensures r.writes == db.writes + 1
  {
    db.(writes := db.writes + 1)
  }

  /** The tables a group insert never touches, and the counters. */
  predicate SameInstancesAndCounters(a: Db, b: Db) {
    && a.flows == b.flows && a.flowInstances == b.flowInstances && a.nodeInstances == b.nodeInstances
    && a.candidates == b.candidates && a.timings == b.timings
    && a.uuidNext == b.uuidNext && a.writes == b.writes
  }

  /** Inserts one row into its table. */
  function InsertRow(db: Db, row: Row): (r: Db)
    ensures SameInstancesAndCounters(db, r)
  {
    match row
    case NodeRow(x) => db.(nodes := db.nodes + [x])
    case RouterRow(x) => db.(routers := db.routers + [x])
    case AssignmentRow(x) => db.(assignments := db.assignments + [x])
    case PropertyRow(x) => db.(properties := db.properties + [x])
    case FormRow(x) => db.(forms := db.forms + [x])
    case FieldRow(x) => db.(fields := db.fields + [x])
    case OptionRow(x) => db.(options := db.options + [x])
    case FieldPropertyRow(x) => db.(fieldProperties := db.fieldProperties + [x])
    case ValidationRow(x) => db.(validations := db.validations + [x])
  }

  /** One multi-row insert statement: the rows in order. */
  function InsertRows(db: Db, rows: seq<Row>): (r: Db)
    ensures SameInstancesAndCounters(db, r)
    decreases |rows|
  {
    if |rows| == 0 then db else InsertRows(InsertRow(db, rows[0]), rows[1..])
  }

  /** The number of statements CreateFlow runs: the flow, then each non-empty group list. */
  function CreateFlowSteps(nodes: NodeOperating, forms: FormOperating): nat {
    1 + (if nodes.Flattened() != [] then 1 else 0) + (if forms.Flattened() != [] then 1 else 0)
  }

  /**
   * CreateFlow: in one transaction, the flow, then the node groups, then the
   * form groups; any failure leaves every table as it was.
   */
  function CreateFlow(db: Db, faults: nat -> DbFault, flow: Flow, nodes: NodeOperating, forms: FormOperating)
    : (o: Outcome<()>)
    ensures o.db.writes == db.writes + 1 && o.db.uuidNext == db.uuidNext
  {
    if Commits(faults(db.writes), CreateFlowSteps(nodes, forms)) then
      Outcome(Ok(()), InsertRows(Tick(db).(flows := db.flows + [flow]), nodes.Flattened() + forms.Flattened()))
    else
      Outcome(Err(DbFailed("CreateFlow")), Tick(db))
  }

  /** CreateFlowInstance as written: an insert failure is reported as success when the rollback succeeds. */
  function CreateFlowInstanceAsWritten(db: Db, faults: nat -> DbFault, fi: FlowInstance, nis: seq<NodeInstance>)
    : (o: Outcome<()>)
    ensures o.db.writes == db.writes + 1
  {
    var f := faults(db.writes);
    if Commits(f, 1 + |nis|) then
      Outcome(Ok(()), Tick(db).(flowInstances := db.flowInstances + [fi], nodeInstances := db.nodeInstances + nis))
    else if f.StepFails? && !f.rollbackFails then
      Outcome(Ok(()), Tick(db))
    else
      Outcome(Err(DbFailed("CreateFlowInstance")), Tick(db))
  }

  /** CreateFlowInstance: the flow instance and its node instances, all or nothing. */
  function CreateFlowInstance(db: Db, faults: nat -> DbFault, fi: FlowInstance, nis: seq<NodeInstance>)
    : (o: Outcome<()>)
    ensures o.db.writes == db.writes + 1
    ensures o.db == Tick(db) || o.db == Tick(db).(flowInstances := db.flowInstances + [fi],
                                                  nodeInstances := db.nodeInstances + nis)
    ensures o.result.Ok? <==> o.db.flowInstances == db.flowInstances + [fi]
  {
    if Commits(faults(db.writes), 1 + |nis|) then
      Outcome(Ok(()), Tick(db).(flowInstances := db.flowInstances + [fi], nodeInstances := db.nodeInstances + nis))
    else
      Outcome(Err(DbFailed("CreateFlowInstance")), Tick(db))
  }

  /** CreateNodeInstance as written: an insert failure is reported as success when the rollback succeeds. */
  function CreateNodeInstanceAsWritten(db: Db, faults: nat -> DbFault, ni: NodeInstance, cs: seq<NodeCandidate>)
    : (o: Outcome<()>)
    ensures o.db.writes == db.writes + 1
  {
    var f := faults(db.writes);
    if Commits(f, 1 + |cs|) then
      Outcome(Ok(()), Tick(db).(nodeInstances := db.nodeInstances + [ni], candidates := db.candidates + cs))
    else if f.StepFails? && !f.rollbackFails then
      Outcome(Ok(()), Tick(db))
    else
      Outcome(Err(DbFailed("CreateNodeInstance")), Tick(db))
  }

  /** CreateNodeInstance: the node instance and its candidates, all or nothing. */
  function CreateNodeInstance(db: Db, faults: nat -> DbFault, ni: NodeInstance, cs: seq<NodeCandidate>)
    : (o: Outcome<()>)
    ensures o.db.writes == db.writes + 1
    ensures o.db == Tick(db) || o.db == Tick(db).(nodeInstances := db.nodeInstances + [ni],
                                                  candidates := db.candidates + cs)
    ensures o.result.Ok? <==> o.db.nodeInstances == db.nodeInstances + [ni]
  {
    if Commits(faults(db.writes), 1 + |cs|) then
      Outcome(Ok(()), Tick(db).(nodeInstances := db.nodeInstances + [ni], candidates := db.candidates + cs))
    else
      Outcome(Err(DbFailed("CreateNodeInstance")), Tick(db))
  }

  /** The completion of one node instance row. */
  function Completed(n: NodeInstance, processor: string, outData: string, now: int): NodeInstance {
    n.(processor := processor, processTime := now, outData := outData, status := NodeDone, updated := now)
  }

  /** The completion update applied to every node instance row with this record id. */
  function CompleteRows(s: seq<NodeInstance>, recordId: string, processor: string, outData: string, now: int)
    : (r: seq<NodeInstance>)
    ensures |r| == |s|
    ensures forall i :: 0 <= i < |s| ==>
              r[i] == if s[i].recordId == recordId then Completed(s[i], processor, outData, now) else s[i]
  {
    seq(|s|, i requires 0 <= i < |s| =>
      if s[i].recordId == recordId then Completed(s[i], processor, outData, now) else s[i])
  }

  /**
   * UpdateNodeInstance with the completion fields: one statement, keyed by
   * record id, applied to every row with that id.
   */
  function CompleteNodeInstance(db: Db, faults: nat -> DbFault, recordId: string, processor: string,
                                outData: string, now: int): (o: Outcome<()>)
    ensures o.db.writes == db.writes + 1
  {
    if faults(db.writes).NoFault? then
      Outcome(Ok(()), Tick(db).(nodeInstances := CompleteRows(db.nodeInstances, recordId, processor, outData, now)))
    else
      Outcome(Err(DbFailed("UpdateNodeInstance")), Tick(db))
  }

  /** The status update applied to every flow instance row with this record id. */
  function StatusRows(s: seq<FlowInstance>, recordId: string, status: int): (r: seq<FlowInstance>)
    ensures |r| == |s|
    ensures forall i :: 0 <= i < |s| ==>
              r[i] == if s[i].recordId == recordId then s[i].(status := status) else s[i]
  {
    seq(|s|, i requires 0 <= i < |s| => if s[i].recordId == recordId then s[i].(status := status) else s[i])
  }

  /** UpdateFlowInstance with a new status: one statement keyed by record id. */
  function UpdateFlowInstanceStatus(db: Db, faults: nat -> DbFault, recordId: string, status: int)
    : (o: Outcome<()>)
    ensures o.db.writes == db.writes + 1
  {
    if faults(db.writes).NoFault? then
      Outcome(Ok(()), Tick(db).(flowInstances := StatusRows(db.flowInstances, recordId, status)))
    else
      Outcome(Err(DbFailed("UpdateFlowInstance")), Tick(db))
  }

  /** CreateNodeTiming: one insert statement. */
  function InsertNodeTiming(db: Db, faults: nat -> DbFault, item: NodeTiming): (o: Outcome<()>)
    ensures o.db.writes == db.writes + 1
  {
    if faults(db.writes).NoFault? then
      Outcome(Ok(()), Tick(db).(timings := db.timings + [item]))
    else
      Outcome(Err(DbFailed("CreateNodeTiming")), Tick(db))
  }

  /** The record ids of the flow's live nodes, as the sub-selects see them before the nodes are deleted. */
  function LiveNodeIds(db: Db, flowId: string): set<string> {
    set n | n in db.nodes && n.deleted == 0 && n.flowId == flowId :: n.recordId
  }

  function DeleteFlowRows(s: seq<Flow>, flowId: string, now: int): (r: seq<Flow>)
    ensures |r| == |s|
    ensures forall i :: 0 <= i < |s| ==>
              r[i] == if s[i].deleted == 0 && s[i].recordId == flowId then s[i].(deleted := now) else s[i]
  {
    seq(|s|, i requires 0 <= i < |s| =>
      if s[i].deleted == 0 && s[i].recordId == flowId then s[i].(deleted := now) else s[i])
  }

  function DeleteRouterRows(s: seq<NodeRouter>, nodeIds: set<string>, now: int): (r: seq<NodeRouter>)
    ensures |r| == |s|
    ensures forall i :: 0 <= i < |s| ==>
              r[i] == if s[i].deleted == 0 && s[i].sourceNodeId in nodeIds then s[i].(deleted := now) else s[i]
  {
    seq(|s|, i requires 0 <= i < |s| =>
      if s[i].deleted == 0 && s[i].sourceNodeId in nodeIds then s[i].(deleted := now) else s[i])
  }

  function DeleteAssignmentRows(s: seq<NodeAssignment>, nodeIds: set<string>, now: int): (r: seq<NodeAssignment>)
    ensures |r| == |s|
    ensures forall i :: 0 <= i < |s| ==>
              r[i] == if s[i].deleted == 0 && s[i].nodeId in nodeIds then s[i].(deleted := now) else s[i]
  {
    seq(|s|, i requires 0 <= i < |s| =>
      if s[i].deleted == 0 && s[i].nodeId in nodeIds then s[i].(deleted := now) else s[i])
  }

  function DeletePropertyRows(s: seq<NodeProperty>, nodeIds: set<string>, now: int): (r: seq<NodeProperty>)
    ensures |r| == |s|
    ensures forall i :: 0 <= i < |s| ==>
              r[i] == if s[i].deleted == 0 && s[i].nodeId in nodeIds then s[i].(deleted := now) else s[i]
  {
    seq(|s|, i requires 0 <= i < |s| =>
      if s[i].deleted == 0 && s[i].nodeId in nodeIds then s[i].(deleted := now) else s[i])
  }

  function DeleteNodeRows(s: seq<Node>, flowId: string, now: int): (r: seq<Node>)
    ensures |r| == |s|
    ensures forall i :: 0 <= i < |s| ==>
              r[i] == if s[i].deleted == 0 && s[i].flowId == flowId then s[i].(deleted := now) else s[i]
  {
    seq(|s|, i requires 0 <= i < |s| =>
      if s[i].deleted == 0 && s[i].flowId == flowId then s[i].(deleted := now) else s[i])
  }

  function DeleteFormRows(s: seq<Form>, flowId: string, now: int): (r: seq<Form>)
    ensures |r| == |s|
    ensures forall i :: 0 <= i < |s| ==>
              r[i] == if s[i].deleted == 0 && s[i].flowId == flowId then s[i].(deleted := now) else s[i]
  {
    seq(|s|, i requires 0 <= i < |s| =>
      if s[i].deleted == 0 && s[i].flowId == flowId then s[i].(deleted := now) else s[i])
  }

  /** The six soft-delete statements of DeleteFlow, in order, all stamped with one timestamp. */
  function SoftDeleteFlow(db: Db, flowId: string, now: int): Db {
    var nodeIds := LiveNodeIds(db, flowId);
    db.(flows := DeleteFlowRows(db.flows, flowId, now),
        routers := DeleteRouterRows(db.routers, nodeIds, now),
        assignments := DeleteAssignmentRows(db.assignments, nodeIds, now),
        properties := DeletePropertyRows(db.properties, nodeIds, now),
        nodes := DeleteNodeRows(db.nodes, flowId, now),
        forms := DeleteFormRows(db.forms, flowId, now))
  }

  /** DeleteFlow: the six statements in one transaction. */
  function DeleteFlow(db: Db, faults: nat -> DbFault, flowId: string, now: int): (o: Outcome<()>)
    ensures o.db.writes == db.writes + 1
  {
    if Commits(faults(db.writes), 6) then Outcome(Ok(()), Tick(SoftDeleteFlow(db, flowId, now)))
    else Outcome(Err(DbFailed("DeleteFlow")), Tick(db))
  }
}
