# kitten workflow engine — a Dafny model

This project models the decision logic of the kitten workflow engine, which is written in Go. It covers:

- **Router.** The node router advances one node instance and then recurses into the successor instances it creates.
- **Deployment.** Deployment turns a parsed BPMN process into record groups, with version reuse and form linking.
- **Services.** The service layer's state transitions.
- **Store.** The store's tables, filters, transactions and soft-delete cascade.
- **Parser.** The BPMN XML parser works over an element tree.
- **Record groups.** Record groups are flattened into insert order.

The store is a snapshot `Tables.Db`, with one sequence per table. Sequence order is auto-increment id order, which the store's `ORDER BY id DESC` queries depend on. The snapshot also keeps two counters:

- `uuidNext` stands for the id generator's state; `Text.Uuid(n)` is the n-th fresh id.
- `writes` counts write operations and indexes a fault oracle `faults: nat -> DbFault`, which decides whether a transaction's begin, one of its statements, its rollback or its commit fails.

Layers:

- **Store (`Repository.Store`).** A class whose `db` field its write methods reassign. Each method is proved equal to a function of `Tables`.
- **Service (`Service.FlowService`).** A class over the store. Each method is proved equal to a function of `Transitions` or `Tables`.
- **Engine (`FlowEngine.Engine`).** Holds the service, the expression runtime (`Expression.Execer`, an oracle) and the JSON marshaller (a parameter). Its loop methods (`Deploy`, `parseOperating`, `parseFormOperating`) are proved equal to the functions of `Deployment`.
- **Node router (`Router.NodeRouter`).** A class with the source's fields (`parent`, `engine`, `node`, `inputData`, `opts`, `flowInstance`, `nodeInstance`, `stop`). `Init` sets them, and `Next` writes the store and sets `stop`. `Next` is proved equal to `Routing.NextSpec`, which returns the store after the run, the handler calls made (as an event trace), the error and `stop`.
- **Properties.** What the source promises is proved about the specification functions:
  - `RoutingProps` for the router;
  - `DeploymentProps` for deployment;
  - `TableLemmas` for the store;
  - lemmas beside the definitions in `Transitions`, `BpmnParse` and `Text`.

Two behaviours of the code worth knowing:

- **`checkNextNodeType`.** It does not stop at the first eligible router. It goes on past an eligible router whose target exists but has another type, and stops only at a missing target or a match (node_router.go:300-326).
- **`Next`.** Run on a successor, it never sets the parent's `stop`. The loop over the successors only breaks (node_router.go:210-218).

## Model

| member | source | states |
|---|---|---|
| Routing.Apply | node_router.go:32-43 | OnNextNodeOption sets only onNextNode, OnFlowEndOption sets only onFlowEnd; autoStart is never changed |
| RoutingProps.OptionsLastWins | node_router.go:66-71 | Init's options start from autoStart true and no handlers; the last option of each kind wins |
| Router.NodeRouter.constructor | node_router.go:45-56 | a fresh router has no parent, no engine and stop unset |
| Router.NodeRouter.Init | node_router.go:59-110 | sets engine, input data and the applied options, keeps parent and stop; fails exactly as InitSpec does and otherwise loads the node instance, its flow instance and its node |
| Router.ApplyOptions | node_router.go:66-71 | the option loop computes ApplyAll of the options |
| RoutingProps.InitLoads | node_router.go:78-107 | Init fails only with NotFound; it succeeds exactly when the node instance, its flow instance and its node are all live, and the loaded records are those |
| Router.NodeRouter.Next | node_router.go:118-221 | the store, the handler calls, the error and the new stop flag are those of NextSpec; stop is only ever set, never cleared; only stop and the store may change, so engine, parent, node, input data, options and both instances are unchanged |
| RoutingProps.SuppressedWritesNothing | node_router.go:124-142 | a user task whose parent is not an auto-starting start event writes nothing, returns no error, does not stop, and calls onNextNode (if set) once with its node, instance and candidates |
| RoutingProps.CompletesUnlessSuppressed | node_router.go:124-148 | every other frame of known type goes on to complete its instance |
| Router.NodeRouter.Proceed | node_router.go:144-166 | completing the instance and the parallel-join guard write and return exactly what Routing.Proceed says |
| RoutingProps.DoneFailureStops | node_router.go:145-148 | if completing the node instance fails, Next returns that error with no handler call, no stop and no new node instance |
| RoutingProps.ParallelGuardWaits | node_router.go:151-166 | a root user task whose next node is a parallel gateway, with a node instance still pending, stops after completing itself: no fan-out, no error, no stop |
| Router.NodeRouter.CheckNextNodeType | node_router.go:291-327 | the method's result is CheckNextNodeType over the node's routers |
| Router.CheckRouters | node_router.go:300-326 | the router loop of checkNextNodeType computes CheckFrom |
| RoutingProps.FindsStep | node_router.go:300-324 | a search from router i succeeds iff router i leads to the type, or is passed over and a later one does |
| RoutingProps.CheckFromFinds | node_router.go:291-327 | checkNextNodeType returns true iff some eligible router leads to a node of the type and every eligible router before it has an existing target of another type |
| RoutingProps.CheckStopsAtMissingTarget | node_router.go:312-319 | an eligible router whose target node is missing makes the answer false, whatever later routers say |
| Router.NodeRouter.Route | node_router.go:168-218 | after completion: end the flow, or fan out and visit the successors, as Routing.Route says |
| Router.NodeRouter.EndFlow | node_router.go:169-202 | the end and terminate branch writes and returns what Routing.EndFlow says |
| RoutingProps.EndCreatesNothing | node_router.go:169-202 | end and terminate events create no node instance or candidate. An end event with pending work does nothing. The flow ends iff it is a terminate event or nothing is pending, and the status write succeeds. Ending writes status 9 to that flow instance only, sets stop and calls onFlowEnd exactly once when it is set. |
| RoutingProps.StatusUpdateEnds | node_router.go:191-196 | after ending, the flow instance reads back with status 9 |
| RoutingProps.StopOnlyAtFlowEnd | node_router.go:196 | Next sets stop only on an end or terminate event |
| Router.NodeRouter.AddNextNodeInstances | node_router.go:224-273 | the store and the returned ids are those of Routing.AddNextNodeInstances |
| Router.AddRouters | node_router.go:234-271 | the router loop computes AddFrom: routers in order, an error stops the loop and keeps what was created |
| Router.AddOne | node_router.go:235-270 | one router: guard, assignments, candidate lists and CreateNodeInstance, as AddStep says |
| Router.CollectCandidates | node_router.go:251-259 | the assignment loop computes Candidates |
| RoutingProps.NoRoutersNoSuccessors | node_router.go:229-231 | a node without routers creates nothing and returns no ids and no error |
| Routing.Guard | node_router.go:235-243 | an empty expression lets the router through; otherwise the runtime's boolean over the expression data decides |
| RoutingProps.AddStepAppends | node_router.go:234-270 | a router let through appends one pending instance of its target, carrying the input, and one candidate row per collected name. Nothing else appends instances. The guard alone decides whether a router is skipped. |
| RoutingProps.CandidatesConcatenate | node_router.go:251-259 | the candidate list is the in-order concatenation of every assignment's string list, or the first error |
| RoutingProps.AppendsPendingStep | node_router.go:234-271 | router i appending nothing or one instance of its own target, followed by in-order appends from router i+1 on, is an in-order append from router i on |
| RoutingProps.AddFromAppendsPending | node_router.go:234-271 | the fan-out keeps the stored instances and only appends pending instances of this flow instance carrying the input, also when an error stops it. Each appended instance is of its own router's target, at most one per router, and their routers are strictly ascending (router order) |
| RoutingProps.AddFromIds | node_router.go:233-272 | the instances already stored are kept; on success the returned ids are the record ids of the appended instances, in creation order |
| RoutingProps.AddAfterIds | node_router.go:233-272 | the same, from the point where one router's step has appended at most one instance |
| Router.NodeRouter.VisitChildren | node_router.go:210-218 | the successors are visited depth first in creation order; the first error returns; the loop breaks after a successor that stopped |
| Router.NodeRouter.VisitChild | node_router.go:211-217 | one successor: Init's error, or the successor's own Next run |
| Router.NodeRouter.NewChild | node_router.go:275-282 | a successor router has the same engine, options, input data and processor, and this frame as parent |
| RoutingProps.ChildrenNeverStop | node_router.go:210-220 | visiting the successors never sets the parent's stop and only adds handler calls after those already made |
| RoutingProps.ChildAfterNeverStops | node_router.go:211-218 | whatever successor `i` did, the rest of the loop leaves the parent's stop unset and keeps the earlier handler calls |
| RoutingProps.RouteNeverStops | node_router.go:204-220 | routing past a node that is not an end or terminate event never sets stop |
| RoutingProps.ProceedNeverStops | node_router.go:144-220 | completing such a node and routing past it never sets stop |
| Expression.GetExpData | node_router.go:330-341 | the expression data has exactly the keys input, flow and node, holding the input and the two instances |
| NodeTypes.ByName | node_router.go:119-122 | a known type name gives the type with that name, an unknown one an error |
| NodeTypes.ByNameOfName | node_router.go:119-127 | every node type's name reads back as that type |
| FlowEngine.Engine.Deploy | engine.go:57-121 | the store, the error and the returned id are those of DeploySpec |
| DeploymentProps.DeployReuses | engine.go:69-79 | with an active flow of that code whose version is at least the parsed one, Deploy returns its id and writes nothing |
| DeploymentProps.DeployWritesOnce | engine.go:81-120 | otherwise one CreateFlow writes a new flow with the parsed code, name, version and status and flag 1. On success every record group is appended and the new id is returned. On failure no table changes. |
| DeploymentProps.DeployIdempotent | engine.go:69-120 | deploying the same enabled definition twice writes once; the second deploy returns the first one's id and changes nothing |
| FlowEngine.Engine.WriteNewFlow | engine.go:81-120 | the writing half of Deploy is Deployment.WriteNewFlow |
| FlowEngine.Engine.LinkNodes | engine.go:94-114 | the form-linking loop computes LinkFrom |
| FlowEngine.Engine.LinkNode | engine.go:96-113 | one node: the first form with the node's form code gives its id to the first node with the node's code |
| FlowEngine.Engine.FindForm | engine.go:99-104 | the first form with the code |
| FlowEngine.Engine.FindNode | engine.go:106-111 | the first node with the code |
| DeploymentProps.LinkFromResolves | engine.go:94-114 | form linking changes only form ids, and every form id it sets names a form of the deployment |
| FlowEngine.Engine.ParseOperating | engine.go:124-197 | the record groups and ids handed out are those of Deployment.ParseOperating |
| FlowEngine.Engine.AddNodes | engine.go:133-160 | the first loop computes FirstPass |
| FlowEngine.Engine.AddNode | engine.go:133-160 | one parsed node: its node record, its form and its assignments, as NodeStep says |
| FlowEngine.Engine.AddAssignments | engine.go:150-157 | one assignment per candidate expression, in order, each naming the node's record id |
| FlowEngine.Engine.AddAllLinks | engine.go:171-194 | the second loop computes SecondPass |
| FlowEngine.Engine.AddLinks | engine.go:173-193 | one parsed node's routers and properties, as LinkStep says |
| FlowEngine.Engine.AddRouters | engine.go:173-182 | one router record per parsed router, in order, with both ends resolved by code and expression and explain copied |
| FlowEngine.Engine.AddProperties | engine.go:185-193 | one property record per parsed property, naming the node's record id |
| FlowEngine.Engine.GetNodeRecordId | engine.go:162-169 | the record id of the first node with the code |
| Deployment.NodeRecordId | engine.go:162-169 | the record id of the first node with the code, or "" when no node has it |
| DeploymentProps.NodeStepBuilds | engine.go:133-160 | one parsed node appends one node record with its code, name, type, flow id and order number i+10. It appends one assignment per candidate expression, in order, each naming that new node's record id and carrying the expression; earlier assignments are kept. The forms stay well formed, and the node's form id names a form. |
| DeploymentProps.NodesFromCons | engine.go:133-160 | adding one node record in front of an ordered tail keeps the records in parsed order |
| DeploymentProps.FirstPassBuilds | engine.go:128-160 | the first loop makes exactly one node record per parsed node, in order. The assignments are, in order, one per candidate expression of each parsed node, each naming the record id of its own node and carrying the expression. |
| DeploymentProps.LinkStepLinks | engine.go:171-194 | one parsed node appends, in order, one router record per parsed router of this node, with its source resolved from the node's code, its target resolved by code, and expression and explain copied. It then appends one property record per parsed property of this node, naming the node's record id, with name and value copied. Earlier records are kept. |
| DeploymentProps.SecondPassLinks | engine.go:171-194 | the second loop keeps nodes, assignments and forms. The router records are, in order, those of each parsed node's routers, node after node, with both ends resolved by code. The property records are, in order, those of each parsed node's properties, each naming its node's record id. |
| DeploymentProps.ParseOperatingBuilds | engine.go:124-197 | parseOperating's whole result: nodes in parsed order with order number i+10; assignments naming their own node, in order; routers and properties in parsed order, resolved by code; forms well formed and linked |
| FlowEngine.Engine.ParseFormOperating | engine.go:200-292 | the form records and node form id are those of Deployment.FormStep |
| DeploymentProps.FormStepWellFormed | engine.go:206-237 | an empty form id adds nothing. A form code already in the group is reused and nothing is added, so codes stay unique. Otherwise the node gets the id of a form with that code. Field records keep referencing their forms. |
| DeploymentProps.NewFormShape | engine.go:217-291 | a new form has a fresh id, the code and the flow id. A URL form (two fields: type_code=URL, then data) has type URL, the second field's default as data, and no other records. A META form has one field record per field, in order, each naming the form. |
| FlowEngine.Engine.AddField | engine.go:242-287 | one field: its field record and its options, properties and validations, as FieldStep says |
| FlowEngine.Engine.AddOptions | engine.go:255-263 | one option record per enum value, naming the field |
| FlowEngine.Engine.AddFieldProperties | engine.go:266-274 | one property record per field property, naming the field |
| FlowEngine.Engine.AddValidations | engine.go:277-285 | one validation record per constraint, naming the field |
| DeploymentProps.FieldStepAppends | engine.go:242-287 | one field appends one field record with a fresh id, the form id and the field's code, label, type and default, and leaves the forms alone |
| DeploymentProps.FieldRecordsOf | engine.go:255-285 | every option, property and validation added for a field names that field's record id |
| DeploymentProps.FieldStepLinks | engine.go:242-287 | after one field, every option, property and validation still names a field record of the group |
| DeploymentProps.FieldsFromLinks | engine.go:242-288 | after all fields, every option, property and validation names a field record |
| DeploymentProps.FieldsFromOrder | engine.go:242-288 | the field records appear in field order, each naming the form and carrying the field's id as code |
| Service.FlowService.CreateFlow | service/flow.go:19-24 | the flow is written by the store's CreateFlow with its flag defaulted |
| Transitions.DefaultFlag | service/flow.go:20-22 | flag 0 becomes 1; every other field is unchanged |
| Service.FlowService.LaunchFlowInstance | service/flow.go:38-83 | the store and the result are those of Transitions.LaunchFlowInstance |
| Transitions.LaunchFlowInstance | service/flow.go:38-83 | an unknown flow or node code gives no instance and writes nothing. With both known, the result is never "no instance": either an error, or a running flow instance with the launcher written together with a pending node instance of that node, carrying the input. On error only the write counter and the two ids handed out change. |
| Transitions.RunningInstance | service/flow.go:59-66 | the new flow instance has status 1, the launcher and the launch time |
| Transitions.LaunchedInstanceIsPending | service/flow.go:59-82 | after a launch, the flow instance is live and running with the launcher, the node instance reads back and the flow instance has work pending |
| Service.FlowService.DoneNodeInstance | service/flow.go:115-137 | the store and error are those of Transitions.DoneNodeInstance |
| Transitions.DoneNodeInstance | service/flow.go:115-137 | fails with nothing written exactly when the instance is absent or already done; otherwise it writes processor, output and status 2 to that instance |
| Transitions.DoneNodeInstanceCompletes | service/flow.go:125-136 | after success the instance reads back completed with the processor and output |
| Transitions.DoneTwiceRejected | service/flow.go:115-137 | a second completion of the same instance is always rejected and writes nothing |
| Service.FlowService.DoneFlowInstance | service/flow.go:147-152 | only the flow instance's status changes, to 9 |
| Service.FlowService.StopFlowInstance | service/flow.go:224-229 | only the flow instance's status changes, to 9 |
| Service.FlowService.CreateNodeInstance | service/flow.go:165-191 | the store and result are those of Transitions.CreateNodeInstance |
| Transitions.CreateNodeInstance | service/flow.go:165-191 | on success it returns the new id and appends one pending instance and one candidate row per input string, in order; on failure no table changes |
| Transitions.PendingInstance | service/flow.go:166-174 | the new instance names its flow instance and node, carries the input and has status 1 |
| Transitions.NewCandidates | service/flow.go:176-185 | one candidate per input string, in order and with duplicates kept, each naming the instance |
| Transitions.NewCandidatesMatch | service/flow.go:176-185 | a user is a candidate of the new instance iff the user is in the input list |
| Transitions.CreatedCandidatesMayAct | service/flow.go:165-191 | after creation, CheckNodeCandidate holds for exactly the listed users |
| Service.FlowService.GetNodeProperty | service/flow.go:194-205 | the map is PropertyMap of the node's live properties |
| Transitions.PropertyMap | service/flow.go:199-203 | the keys are exactly the property names |
| Transitions.PropertyMapLastWins | service/flow.go:199-203 | a later property with the same name overwrites an earlier one |
| Service.FlowService.CreateNodeTiming | service/flow.go:208-211 | the timing is inserted with its ID reset to 0 |
| Transitions.TimingRow | service/flow.go:209 | ID becomes 0; every other field is unchanged |
| Repository.Store.constructor | repository/flow.go:12-15 | a new store has empty tables and the given fault oracle |
| Repository.Store.InsertStatement | repository/flow.go:25-47 | one insert statement either fails as the fault says and rolls back to the saved snapshot, or inserts its rows |
| Repository.Store.CreateFlow | repository/flow.go:18-54 | the store and error are those of Tables.CreateFlow |
| Repository.Store.NodeGroupRows | repository/flow.go:32 | the node rows inserted are NodeOperating's flattening |
| Repository.Store.FormGroupRows | repository/flow.go:41 | the form rows inserted are FormOperating's flattening |
| Repository.CreateFlowCommitted | repository/flow.go:24-49 | inserting the node groups only when non-empty, then the form groups only when non-empty, is inserting their concatenation |
| TableLemmas.CreateFlowAllOrNothing | repository/flow.go:18-54 | CreateFlow commits iff no statement fails. On commit, the flow and every record group are appended. Otherwise no table changes. |
| TableLemmas.InsertRowsAppend | repository/flow.go:33-42 | inserting two row lists in turn is inserting their concatenation |
| TableLemmas.InsertNodeOperating | repository/flow.go:31-38 | inserting the flattened node groups appends each group to its table |
| TableLemmas.InsertFormOperating | repository/flow.go:40-47 | inserting the flattened form groups appends each group to its table |
| TableLemmas.InsertNodes | repository/flow.go:33 | node rows go to the node table, in order |
| TableLemmas.InsertRouters | repository/flow.go:33 | router rows go to the router table, in order |
| TableLemmas.InsertAssignments | repository/flow.go:33 | assignment rows go to the assignment table, in order |
| TableLemmas.InsertProperties | repository/flow.go:33 | node property rows go to the node property table, in order |
| TableLemmas.InsertForms | repository/flow.go:42 | form rows go to the form table, in order |
| TableLemmas.InsertFields | repository/flow.go:42 | field rows go to the field table, in order |
| TableLemmas.InsertOptions | repository/flow.go:42 | option rows go to the option table, in order |
| TableLemmas.InsertFieldProperties | repository/flow.go:42 | field property rows go to the field property table, in order |
| TableLemmas.InsertValidations | repository/flow.go:42 | validation rows go to the validation table, in order |
| Tables.GetFlowByCode | repository/flow.go:124-138 | the live flow with the code, flag 1 and status 1 with the highest version, or absent exactly when there is none |
| Tables.LatestVersion | repository/flow.go:127-128 | a flow of highest version among the candidates, absent only for none |
| Tables.GetNode | repository/flow.go:160-173 | the live node with the record id, or absent exactly when there is none |
| Tables.GetNodeByCode | repository/flow.go:141-157 | a live node of the flow with the code, or absent exactly when there is none |
| Tables.GetFlowInstance | repository/flow.go:341-354 | the live flow instance with the record id, or absent exactly when there is none |
| Tables.GetNodeInstance | repository/flow.go:357-370 | the live node instance with the record id, or absent exactly when there is none |
| Tables.CheckNodeCandidate | repository/flow.go:176-188 | true iff a live candidate row names both the node instance and the user |
| Tables.CheckFlowInstanceTodo | repository/flow.go:286-295 | true iff a live node instance of the flow instance has status 1 |
| Tables.QueryNodeCandidates | repository/flow.go:191-201 | exactly the live candidates of the node instance |
| Tables.QueryNodeProperty | repository/flow.go:204-214 | exactly the live properties of the node |
| Tables.QueryNodeRouters | repository/flow.go:217-227 | exactly the live routers leaving the node |
| Tables.QueryNodeAssignments | repository/flow.go:230-240 | exactly the live assignments of the node |
| Repository.Store.CreateFlowInstance | repository/flow.go:243-274 | the store and error are those of Tables.CreateFlowInstance |
| Repository.Store.CreateNodeInstance | repository/flow.go:298-329 | the store and error are those of Tables.CreateNodeInstance |
| TableLemmas.CreateFlowInstanceAsWrittenHidesInsertFailure | repository/flow.go:249-256 | as written, a failed insert whose rollback succeeds is reported as success, with nothing written |
| TableLemmas.CreateNodeInstanceAsWrittenHidesInsertFailure | repository/flow.go:304-311 | as written, a failed insert whose rollback succeeds is reported as success, with nothing written |
| Tables.CreateFlowInstance | repository/flow.go:243-274 | the rows are written together or not at all, and success is reported iff the flow instance was written |
| TableLemmas.CreateFlowInstanceReportsFailure | repository/flow.go:243-274 | corrected: success iff both the flow instance and its node instances were appended |
| Tables.CreateNodeInstance | repository/flow.go:298-329 | the rows are written together or not at all, and success is reported iff the node instance was written |
| Repository.Store.CompleteNodeInstance | repository/flow.go:332-338 | the store and error are those of Tables.CompleteNodeInstance |
| Repository.Store.UpdateFlowInstanceStatus | repository/flow.go:277-283 | the store and error are those of Tables.UpdateFlowInstanceStatus |
| Repository.Store.CreateNodeTiming | repository/flow.go:373-379 | the store and error are those of Tables.InsertNodeTiming |
| Tables.QueryAllFlowPage | repository/flow.go:57-106 | total is the number of matching live flows with flag 1; a zero total gives no items; items are matching flows, newest first, at most pageSize when both page arguments are positive and all of them otherwise |
| Tables.QueryAllFlowPageWindow | repository/flow.go:94-100 | with both page arguments positive, the items are the matching flows newest first from position (pageIndex-1)*pageSize on, as many as LIMIT returns; otherwise all of them, in that order |
| Tables.PageIndices | repository/flow.go:62-94 | exactly the positions of the matching flows, in descending id order |
| Tables.PageWindow | repository/flow.go:95-97 | with pageIndex and pageSize both positive, the window starting at (pageIndex-1)*pageSize: the entries from there on, pageSize of them or as many as are left; otherwise the whole list |
| Tables.PageTotalZero | repository/flow.go:87-92 | the total is 0 iff no flow matches |
| Text.Contains | repository/flow.go:67-75 | exact, case-sensitive substring search: true iff the pattern occurs at some position |
| Tables.QueryTodo | repository/flow.go:415-456 | a negative limit is an error. Otherwise at most limit rows are returned, each a qualifying pending node instance: its flow instance is in progress and the user is a candidate. |
| Tables.TodoIndices | repository/flow.go:429-448 | exactly the qualifying node instances, newest first |
| Tables.TodoRows | repository/flow.go:417-433 | one row per selected instance, in order |
| TableLemmas.QueryTodoNewestFirst | repository/flow.go:415-456 | the rows are the first min(limit, n) qualifying instances, newest first |
| TableLemmas.TypeCodeTakesPrecedence | repository/flow.go:441-447 | with a type code filter, the flow code filter makes no difference |
| Repository.Store.QueryDoneIDs | repository/flow.go:391-412 | the ids of the live main-flow instances of the code that the user processed, one per instance, each of them present |
| Tables.DoneInstances | repository/flow.go:391-412 | exactly the live instances of a main flow with the code that the user has processed |
| Repository.Store.DeleteFlow | repository/flow.go:459-507 | the store and error are those of Tables.DeleteFlow |
| TableLemmas.DeleteFlowAtomic | repository/flow.go:459-507 | the six soft deletes commit together or not at all |
| TableLemmas.DeleteFlowRemovesFlow | repository/flow.go:459-507 | after success, neither the flow nor its nodes nor its forms are live |
| TableLemmas.DeleteFlowRemovesNodeData | repository/flow.go:472-488 | after success, the flow's nodes have no live routers, assignments or properties |
| TableLemmas.DeleteFlowTouchesOnlyLiveRows | repository/flow.go:459-507 | only live rows of the flow change, all with the one timestamp; form fields are untouched |
| Operating.NodeOperating.All | model/node_operating.go:12-29 | nodes, then routers, then assignments, then properties, each group in order; the length is the sum; empty iff all groups are empty |
| Operating.NodeOperating.Layout | model/node_operating.go:15-26 | the flattening holds each group at its offset, in order |
| Operating.FormOperating.All | model/form_operating.go:13-33 | forms, then fields, then options, then properties, then validations, each group in order; the length is the sum; empty iff all groups are empty |
| Operating.FormOperating.Layout | model/form_operating.go:16-30 | the flattening holds each group at its offset, in order |
| BpmnParse.Parse | pkg/parse/xml/parse_xml.go:22-113 | fails exactly when the header, a node type or a sequence flow is bad. Otherwise the header's id, name, version and status are kept, and the node map is listed with every entry exactly once. |
| BpmnParse.ListNodes | pkg/parse/xml/parse_xml.go:109-111 | every node of the map is listed exactly once |
| BpmnParse.NodePass | pkg/parse/xml/parse_xml.go:73-92 | the first loop computes NodesFrom: the node map, or the first unknown-type error; every entry is stored under its own id |
| BpmnParse.RouterPass | pkg/parse/xml/parse_xml.go:96-107 | the second loop computes RoutersFrom: the map with every flow attached, or the first bad flow's error; entries stay under their own ids |
| BpmnParse.ParseHeader | pkg/parse/xml/parse_xml.go:23-66 | status is 1 iff isExecutable parses as true, else 2; a missing versionTag gives version 0; a versionTag that is not an integer is an error |
| Text.ParseBool | pkg/parse/xml/parse_xml.go:55 | the strings Go's ParseBool accepts as true and as false |
| Text.ParseInt | pkg/parse/xml/parse_xml.go:62 | a non-empty digit string gives its value, a sign followed by digits gives the signed value, and every other string, the empty one included, is an error |
| Text.DecimalRoundTrip | engine.go:141 | the order number's decimal string parses back to the number |
| Text.NatToDecimal | engine.go:141 | a non-empty string of digits |
| Text.DecimalValue | engine.go:141 | the digits' value is the number |
| Text.DecimalInjective | engine.go:141 | different order numbers have different strings |
| BpmnParse.Classify | pkg/parse/xml/parse_xml.go:73-98 | sequenceFlow children are read by the second pass only; documentation and extensionElements by neither; every other child is a node, an error iff its type is unknown |
| BpmnParse.Children | pkg/parse/xml/parse_xml.go:73 | each child of the process, in document order, classified |
| BpmnParse.NodesFromFails | pkg/parse/xml/parse_xml.go:73-92 | the node pass fails iff some node has an unknown type |
| BpmnParse.NodesFromLastWins | pkg/parse/xml/parse_xml.go:90 | the last node with an id is the one kept under that id |
| BpmnParse.NodesFromKeeps | pkg/parse/xml/parse_xml.go:90 | an entry no later node replaces is kept |
| BpmnParse.NodesFromOnlySeen | pkg/parse/xml/parse_xml.go:73-92 | every key of the map is the id of some node child |
| BpmnParse.LastOccurrence | pkg/parse/xml/parse_xml.go:73-92 | every node id has a last occurrence |
| BpmnParse.RoutersFromFails | pkg/parse/xml/parse_xml.go:96-107 | the flow pass fails iff some sequence flow lacks id, sourceRef or targetRef |
| BpmnParse.RoutersFromAppends | pkg/parse/xml/parse_xml.go:96-107 | each node gets exactly the flows whose source is its id appended to its routers, in document order, and nothing else changes |
| BpmnParse.RoutersFromKeepsKeys | pkg/parse/xml/parse_xml.go:103-105 | flows with an unknown source add no node |
| BpmnParse.AttachAppends | pkg/parse/xml/parse_xml.go:99-105 | one flow appends its router to its source node only |
| BpmnParse.AttachKeepsKeys | pkg/parse/xml/parse_xml.go:103-105 | one flow adds no key and keeps every node under its own id |
| BpmnParse.PassesKeepLastWithFlows | pkg/parse/xml/parse_xml.go:69-107 | the parsed map has an entry for an id iff a node has it, and that entry is the id's last node plus the flows leaving it |
| BpmnParse.NodeTypeName | pkg/parse/xml/parse_xml.go:118-125 | an endEvent with a terminateEventDefinition child is terminateEvent; every other tag is used as-is |
| BpmnParse.ParseNode | pkg/parse/xml/parse_xml.go:115-171 | type, code and name from the element; candidateUsers becomes a one-element list; the form id is formKey; no kept property has an empty name |
| BpmnParse.ParseNodeReadsExtensions | pkg/parse/xml/parse_xml.go:141-167 | the fields are one per formField child of the extension's formData, in document order, or none without one; the properties are those of the named property children of the extension's properties element, in document order, or none without one |
| BpmnParse.ParseNodeKeepsNamedProperties | pkg/parse/xml/parse_xml.go:152-166 | every property child with a non-empty name is kept, and every kept property comes from such a child |
| BpmnParse.NodeProperties | pkg/parse/xml/parse_xml.go:152-166 | one property per element with a non-empty name, in document order, with its name and value |
| BpmnParse.NamedPositions | pkg/parse/xml/parse_xml.go:152-166 | the indices of the elements with a non-empty name: ascending, each named, none left out |
| BpmnParse.NodePropertiesKept | pkg/parse/xml/parse_xml.go:152-166 | the kept properties are exactly those of the elements with a non-empty name |
| BpmnParse.ToNodeResult | pkg/parse/xml/parse_xml.go:80-89 | the node result carries the node's code and no routers yet |
| BpmnParse.ParseSequenceFlow | pkg/parse/xml/parse_xml.go:173-192 | an error iff id, sourceRef or targetRef is missing; source and target copied; expression is the last conditionExpression's text or "", explain the last documentation's text |
| BpmnParse.LastText | pkg/parse/xml/parse_xml.go:180-187 | absent iff no child has the tag |
| BpmnParse.LastTextIsLast | pkg/parse/xml/parse_xml.go:180-187 | the text is that of the last child with the tag |
| BpmnParse.ParseField | pkg/parse/xml/parse_xml.go:200-235 | options are read only when the type is enum |
| BpmnParse.SelectAttr | pkg/parse/xml/parse_xml.go:126-139 | the value of an attribute with the key, absent iff there is none |
| BpmnParse.SelectElement | pkg/parse/xml/parse_xml.go:141-152 | the first child with the tag: no earlier child has it; absent iff there is none |
| BpmnParse.SelectElements | pkg/parse/xml/parse_xml.go:154 | exactly the children with the tag |
| BpmnParse.SelectElementsInOrder | pkg/parse/xml/parse_xml.go:154 | one child per position TagPositions lists, in document order |
| BpmnParse.TagPositions | pkg/parse/xml/parse_xml.go:154 | the indices of the children with the tag: strictly ascending, each with the tag, none left out |
| Text.Uuid | engine.go:82 | a fresh id is never empty |
| Text.UuidInjective | engine.go:82 | fresh ids are distinct |

## Left out

- **I/O.** Reading the BPMN file, the database connection and engine bootstrapping (`Engine.Init`) are left out. Deploy receives the parse result and the document text.
- **etree.** Byte-level XML reading is left out. The parser works on an element tree of tags, attributes, children and text.
- **Go panics.** Where the Go code dereferences a missing `definitions`, `process`, `id`, `sourceRef` or `targetRef`, it panics. The model returns an error instead.
- **JSON and the expression runtime.** JSON marshalling of form fields is a parameter `Marshal` of the engine. The expression runtime is an oracle `Execer` that returns a boolean or a string list, or an error, for an expression over the expression data.
- **Time and ids.** `time.Now` and `util.UUID` are parameters: the `now` argument and the `uuidNext` counter.
- **Contexts and locking.** `context.Context` and the `sync.RWMutex` of the service are left out. Calls are sequential.
- **Handlers.** The `onNextNode` and `onFlowEnd` handlers are foreign code. They are recorded as an event trace of the calls made.
- **Reads never fail.** In the model a failing read cannot happen, so the error returns after store reads are not modelled. Write failures are modelled by the fault oracle.
- **Router.NodeRouter.Next: recursion depth.** `Next` takes a `depth` bound that the source does not have. A successor visited at depth 0 returns `DepthExceeded`. The source can recurse without limit on a cyclic graph.
- **Node type names.** The node-type package is not part of this model. Its names are assumed to be `startEvent`, `endEvent`, `terminateEvent`, `userTask`, `exclusiveGateway` and `parallelGateway`.
- **Parse: node order.** The source lists the node map in Go's map iteration order, which is unspecified. `BpmnParse.Parse` promises only that every entry is listed exactly once.
- **SQL.** SQL text, `ORDER BY` on columns other than the id, the `uint` page arguments (modelled as `nat`) and integer overflow in `StringToInt` are left out.
- **Form metadata.** The form's `Data` for META forms is the marshaller's value. Its JSON content is not modelled.
- **Queries used only elsewhere.** `QueryAllFlowPage`'s result rows carry only the selected columns. `GetFlow` and `UpdateNodeTiming` are not used by the modelled core and are not modelled.
- **Node timings.** Node-timing creation from routing is not in the source shown. Only `CreateNodeTiming` is modelled.
- **Corrected transactions.** The store's CreateFlowInstance and CreateNodeInstance are modelled as the evidently intended transaction, which reports a failed insert as an error (see Findings). As written, the code returns nil after a failed insert whose rollback succeeds (repository/flow.go:249-256, 304-311). LaunchFlowInstance then returns an instance that was never stored. The router passes the unstored id to Init, which fails with ErrNotFound (node_router.go:261-283, 79-85). The members below are stated over the corrected transaction only.
- Repository.Store.CreateFlowInstance: runs the corrected transaction, not the as-written one.
- Repository.Store.CreateNodeInstance: runs the corrected transaction, not the as-written one.
- Transitions.LaunchedInstanceIsPending: holds for the corrected transaction; as written, a hidden insert failure leaves the returned instance unstored.
- Transitions.CreatedCandidatesMayAct: holds for the corrected transaction; as written, a hidden insert failure leaves no candidate rows.
- RoutingProps.AddFromIds: holds for the corrected transaction; as written, an id can be returned for an instance that was never stored.
- Text.Contains: exact, case-sensitive substring search. The source binds a LIKE pattern `%code%`, where `%` and `_` in the user's text are wildcards and the collation may be case-insensitive; neither is modelled.
- Tables.PageMatches: uses Text.Contains for the code and name filters, so it shares that limit.
- Text.ParseInt: util.StringToInt is not part of this model. It is taken to convert decimals as strconv.Atoi does, and its out-of-range error is not modelled, since integers are unbounded.
- Tables.JoinedFlowInstance: states only that the joined row is the node instance's flow instance. The in-progress and flow filters are stated by `Tables.TodoIndices`.
- Text.Uuid: states only that ids are non-empty and distinct, not the UUID text format.

## Findings

| source | as written | input that shows it | evidently intended | confidence | as-written member | corrected member |
|---|---|---|---|---|---|---|
| repository/flow.go:249-256 | after a failed insert, `err` is overwritten by `Rollback`'s result, and `errors.Wrapf(nil, …)` is nil | the flow instance insert fails and the rollback succeeds: the call returns nil and nothing is written | report the insert failure | not executed | Tables.CreateFlowInstanceAsWritten (shown by TableLemmas.CreateFlowInstanceAsWrittenHidesInsertFailure) | Tables.CreateFlowInstance (proved by TableLemmas.CreateFlowInstanceReportsFailure) |
| repository/flow.go:304-311 | the same overwrite in CreateNodeInstance | the node instance insert fails and the rollback succeeds: the call returns nil, no node instance is written, and the router goes on with the returned id | report the insert failure | not executed | Tables.CreateNodeInstanceAsWritten (shown by TableLemmas.CreateNodeInstanceAsWrittenHidesInsertFailure) | Tables.CreateNodeInstance |
