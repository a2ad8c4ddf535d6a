/**
 * The process-definition parser (pkg/parse/xml/parse_xml.go) over an
 * already-read element tree. Tags and attribute keys are local names: the
 * element library matches a key without a namespace prefix against any
 * prefix, so `camunda:formKey` is the attribute `formKey` here.
 */
module BpmnParse {
  import opened Wrappers
  import opened Text
  import opened NodeTypes

  datatype Attr = Attr(key: string, value: string)

  /** An element: its tag, its attributes in document order, its child elements and its leading text. */
  datatype Element = Element(tag: string, attrs: seq<Attr>, children: seq<Element>, text: string)

  /** SelectAttr: the value of the first attribute with this key. */
  function SelectAttr(e: Element, key: string): (r: Option<string>)
    ensures r.Some? ==> exists a :: a in e.attrs && a.key == key && a.value == r.value
    ensures r.None? <==> forall a :: a in e.attrs ==> a.key != key
  {
    AttrIn(e.attrs, key)
  }

  function AttrIn(attrs: seq<Attr>, key: string): (r: Option<string>)
    ensures r.Some? ==> exists a :: a in attrs && a.key == key && a.value == r.value
    ensures r.None? <==> forall a :: a in attrs ==> a.key != key
  {
    if |attrs| == 0 then None
    else if attrs[0].key == key then Some(attrs[0].value)
    else AttrIn(attrs[1..], key)
  }

  /** An attribute's value, or "" when the attribute is absent (a field left at its zero value). */
  function AttrOr(e: Element, key: string): string {
    SelectAttr(e, key).GetOr("")
  }

  /** SelectElement: the first child with this tag; no child before it has the tag. */
  function SelectElement(e: Element, tag: string): (r: Option<Element>)
    ensures r.Some? ==> r.value in e.children && r.value.tag == tag
    ensures r.Some? ==> exists i :: 0 <= i < |e.children| && e.children[i] == r.value
                                    && forall j :: 0 <= j < i ==> e.children[j].tag != tag
    ensures r.None? <==> forall c :: c in e.children ==> c.tag != tag
  {
    ChildIn(e.children, tag)
  }

  function ChildIn(cs: seq<Element>, tag: string): (r: Option<Element>)
    ensures r.Some? ==> r.value in cs && r.value.tag == tag
    ensures r.Some? ==> exists i :: 0 <= i < |cs| && cs[i] == r.value && forall j :: 0 <= j < i ==> cs[j].tag != tag
    ensures r.None? <==> forall c :: c in cs ==> c.tag != tag
  {
    if |cs| == 0 then None
    else if cs[0].tag == tag then Some(cs[0])
    else
      var rest := ChildIn(cs[1..], tag);
      assert rest.Some? ==> exists i :: 0 <= i < |cs| && cs[i] == rest.value && forall j :: 0 <= j < i ==> cs[j].tag != tag
      by {
        if rest.Some? {
          var i :| 0 <= i < |cs[1..]| && cs[1..][i] == rest.value && forall j :: 0 <= j < i ==> cs[1..][j].tag != tag;
          assert forall j :: 1 <= j < i + 1 ==> cs[j] == cs[1..][j - 1];
        }
      }
      rest
  }

  /**
   * The indices of the children from `i` on that carry this tag: ascending,
   * each with the tag, and none left out.
   */
  function TagPositions(cs: seq<Element>, tag: string, i: nat): (p: seq<nat>)
    requires i <= |cs|
    ensures forall k :: 0 <= k < |p| ==> i <= p[k] < |cs| && cs[p[k]].tag == tag
    ensures forall k, l :: 0 <= k < l < |p| ==> p[k] < p[l]
    ensures forall j :: i <= j < |cs| && cs[j].tag == tag ==> j in p
    decreases |cs| - i
  {
    if i == |cs| then [] else (if cs[i].tag == tag then [i] else []) + TagPositions(cs, tag, i + 1)
  }

  /** SelectElements: the children with this tag, in document order (see SelectElementsInOrder). */
  function SelectElements(e: Element, tag: string): (r: seq<Element>)
    ensures forall c :: c in r <==> c in e.children && c.tag == tag
  {
    var cs := e.children;
    var p := TagPositions(cs, tag, 0);
    var r := ChildrenIn(cs, tag, 0);
    SelectedAreTagged(cs, tag, p, r);
    r
  }

  /** Children picked at a complete list of tagged positions are exactly the tagged children. */
  lemma SelectedAreTagged(cs: seq<Element>, tag: string, p: seq<nat>, r: seq<Element>)
    requires |r| == |p| && forall k :: 0 <= k < |p| ==> p[k] < |cs| && cs[p[k]].tag == tag && r[k] == cs[p[k]]
    requires forall j :: 0 <= j < |cs| && cs[j].tag == tag ==> j in p
    ensures forall c :: c in r <==> c in cs && c.tag == tag
  {
    forall c | c in cs && c.tag == tag ensures c in r {
      var j :| 0 <= j < |cs| && cs[j] == c;
      var k :| 0 <= k < |p| && p[k] == j;
      assert r[k] == c;
    }
    forall c | c in r ensures c in cs && c.tag == tag {
      var k :| 0 <= k < |r| && r[k] == c;
      assert cs[p[k]] == c;
    }
  }

  /** SelectElements picks one child per position TagPositions lists, in that order. */
  lemma SelectElementsInOrder(e: Element, tag: string)
    ensures |SelectElements(e, tag)| == |TagPositions(e.children, tag, 0)|
    ensures forall k :: 0 <= k < |SelectElements(e, tag)| ==>
              SelectElements(e, tag)[k] == e.children[TagPositions(e.children, tag, 0)[k]]
  {
  }

  /** The children from `i` on with this tag, one per position TagPositions lists. */
  function ChildrenIn(cs: seq<Element>, tag: string, i: nat): (r: seq<Element>)
    requires i <= |cs|
    ensures |r| == |TagPositions(cs, tag, i)|
    ensures forall k :: 0 <= k < |r| ==> r[k] == cs[TagPositions(cs, tag, i)[k]]
    decreases |cs| - i
  {
    if i == |cs| then [] else (if cs[i].tag == tag then [cs[i]] else []) + ChildrenIn(cs, tag, i + 1)
  }

  /** The text of the last child with this tag, if any. */
  function LastText(cs: seq<Element>, tag: string): (r: Option<string>)
    ensures r.None? <==> forall c :: c in cs ==> c.tag != tag
    decreases |cs|
  {
    if |cs| == 0 then None
    else if cs[|cs| - 1].tag == tag then Some(cs[|cs| - 1].text)
    else
      assert forall c :: c in cs <==> c in cs[..|cs| - 1] || c == cs[|cs| - 1];
      LastText(cs[..|cs| - 1], tag)
  }

  /** LastText reads the child with that tag after which no other child has it. */
  lemma {:induction false} LastTextIsLast(cs: seq<Element>, tag: string)
    requires LastText(cs, tag).Some?
    ensures exists i :: 0 <= i < |cs| && cs[i].tag == tag && cs[i].text == LastText(cs, tag).value
                        && forall j :: i < j < |cs| ==> cs[j].tag != tag
    decreases |cs|
  {
    var last := |cs| - 1;
    if cs[last].tag == tag {
      assert cs[last].text == LastText(cs, tag).value;
    } else {
      var init := cs[..last];
      assert LastText(cs, tag) == LastText(init, tag);
      LastTextIsLast(init, tag);
      var i :| 0 <= i < |init| && init[i].tag == tag && init[i].text == LastText(init, tag).value
               && forall j :: i < j < |init| ==> init[j].tag != tag;
      assert cs[i] == init[i];
      forall j | i < j < |cs| ensures cs[j].tag != tag {
        if j < last {
          assert cs[j] == init[j];
        }
      }
    }
  }

  // The parser's results. Their package (pkg/parse) is not part of this
  // model; the fields are the ones the parser and the engine use.

  datatype PropertyResult = PropertyResult(name: string, value: string)
  datatype FieldOptionResult = FieldOptionResult(id: string, name: string)
  datatype FieldPropertyResult = FieldPropertyResult(id: string, value: string)
  datatype FieldValidationResult = FieldValidationResult(name: string, config: string)
  datatype FormFieldResult = FormFieldResult(
    id: string,
    labelText: string,
    typeName: string,
    defaultValue: string,
    values: seq<FieldOptionResult>,
    properties: seq<FieldPropertyResult>,
    validations: seq<FieldValidationResult>)
  datatype NodeFormResult = NodeFormResult(id: string, fields: seq<FormFieldResult>)
  datatype RouterResult = RouterResult(targetNodeId: string, expression: string, explain: string)
  datatype NodeResult = NodeResult(
    nodeId: string,
    nodeName: string,
    nodeType: NodeType,
    candidateExpressions: seq<string>,
    formResult: NodeFormResult,
    properties: seq<PropertyResult>,
    routers: seq<RouterResult>)
  datatype ParseResult = ParseResult(
    flowId: string,
    flowName: string,
    flowVersion: int,
    flowStatus: int,
    nodes: seq<NodeResult>)

  /** What ParseNode reads from a node element. */
  datatype NodeInfo = NodeInfo(
    typeName: string,
    code: string,
    name: string,
    candidateUsers: seq<string>,
    properties: seq<PropertyResult>,
    formResult: NodeFormResult)

  /** What ParseSequenceFlow reads from a sequenceFlow element. */
  datatype SequenceFlow = SequenceFlow(code: string, sourceRef: string, targetRef: string,
                                       explain: string, expression: string)

  /** ParseEnumValues: one option per `value` child, in document order. */
  function ParseEnumValues(e: Element): (r: seq<FieldOptionResult>)
    ensures |r| == |SelectElements(e, "value")|
    ensures forall k :: 0 <= k < |r| ==>
              r[k] == FieldOptionResult(AttrOr(SelectElements(e, "value")[k], "id"),
                                        AttrOr(SelectElements(e, "value")[k], "name"))
  {
    var vs := SelectElements(e, "value");
    seq(|vs|, k requires 0 <= k < |vs| => FieldOptionResult(AttrOr(vs[k], "id"), AttrOr(vs[k], "name")))
  }

  /** ParseProperties: one field property per `property` child, in document order. */
  function ParseProperties(e: Element): (r: seq<FieldPropertyResult>)
    ensures |r| == |SelectElements(e, "property")|
    ensures forall k :: 0 <= k < |r| ==>
              r[k] == FieldPropertyResult(AttrOr(SelectElements(e, "property")[k], "id"),
                                          AttrOr(SelectElements(e, "property")[k], "value"))
  {
    var ps := SelectElements(e, "property");
    seq(|ps|, k requires 0 <= k < |ps| => FieldPropertyResult(AttrOr(ps[k], "id"), AttrOr(ps[k], "value")))
  }

  /** ParseValidations: one validation per `constraint` child, in document order. */
  function ParseValidations(e: Element): (r: seq<FieldValidationResult>)
    ensures |r| == |SelectElements(e, "constraint")|
    ensures forall k :: 0 <= k < |r| ==>
              r[k] == FieldValidationResult(AttrOr(SelectElements(e, "constraint")[k], "name"),
                                            AttrOr(SelectElements(e, "constraint")[k], "config"))
  {
    var cs := SelectElements(e, "constraint");
    seq(|cs|, k requires 0 <= k < |cs| => FieldValidationResult(AttrOr(cs[k], "name"), AttrOr(cs[k], "config")))
  }

  /**
   * One `formField`: its properties and validations from the first
   * `properties` and `validation` children, and its enum options only when
   * its type is `enum`.
   */
  function ParseField(item: Element): (r: FormFieldResult)
    ensures r.typeName != "enum" ==> r.values == []
    ensures r.typeName == "enum" ==> r.values == ParseEnumValues(item)
    ensures r.id == AttrOr(item, "id") && r.defaultValue == AttrOr(item, "defaultValue")
  {
    FormFieldResult(
      AttrOr(item, "id"),
      AttrOr(item, "label"),
      AttrOr(item, "type"),
      AttrOr(item, "defaultValue"),
      if AttrOr(item, "type") == "enum" then ParseEnumValues(item) else [],
      match SelectElement(item, "properties") case Some(p) => ParseProperties(p) case None => [],
      match SelectElement(item, "validation") case Some(v) => ParseValidations(v) case None => [])
  }

  /** ParseFormData: the form's id and one field per `formField` child, in document order. */
  function ParseFormData(e: Element): (r: NodeFormResult)
    ensures r.id == AttrOr(e, "id")
    ensures |r.fields| == |SelectElements(e, "formField")|
    ensures forall k :: 0 <= k < |r.fields| ==> r.fields[k] == ParseField(SelectElements(e, "formField")[k])
  {
    var fs := SelectElements(e, "formField");
    NodeFormResult(AttrOr(e, "id"), seq(|fs|, k requires 0 <= k < |fs| => ParseField(fs[k])))
  }

  /** The node property one `property` element describes. */
  function PropertyOf(p: Element): PropertyResult {
    PropertyResult(AttrOr(p, "name"), AttrOr(p, "value"))
  }

  /** The indices of the property elements from `i` on whose name is not empty: ascending, and none left out. */
  function NamedPositions(ps: seq<Element>, i: nat): (q: seq<nat>)
    requires i <= |ps|
    ensures forall k :: 0 <= k < |q| ==> i <= q[k] < |ps| && AttrOr(ps[q[k]], "name") != ""
    ensures forall k, l :: 0 <= k < l < |q| ==> q[k] < q[l]
    ensures forall j :: i <= j < |ps| && AttrOr(ps[j], "name") != "" ==> j in q
    decreases |ps| - i
  {
    if i == |ps| then [] else (if AttrOr(ps[i], "name") != "" then [i] else []) + NamedPositions(ps, i + 1)
  }

  /**
   * The node properties under `extensionElements/properties`, from element
   * `i` on: one per element with a non-empty name, in document order; those
   * with an empty name are dropped.
   */
  function NodeProperties(ps: seq<Element>, i: nat): (r: seq<PropertyResult>)
    requires i <= |ps|
    ensures |r| == |NamedPositions(ps, i)|
    ensures forall k :: 0 <= k < |r| ==> r[k] == PropertyOf(ps[NamedPositions(ps, i)[k]])
    ensures forall p :: p in r ==> p.name != ""
    decreases |ps| - i
  {
    if i == |ps| then []
    else
      var rest := NodeProperties(ps, i + 1);
      if AttrOr(ps[i], "name") != "" then
        assert NamedPositions(ps, i) == [i] + NamedPositions(ps, i + 1);
        [PropertyOf(ps[i])] + rest
      else
        assert NamedPositions(ps, i) == NamedPositions(ps, i + 1);
        rest
  }

  /** Kept properties are exactly those of the elements with a non-empty name. */
  lemma NodePropertiesKept(ps: seq<Element>)
    ensures forall k :: 0 <= k < |ps| && AttrOr(ps[k], "name") != "" ==> PropertyOf(ps[k]) in NodeProperties(ps, 0)
    ensures forall p :: p in NodeProperties(ps, 0) ==> exists k :: 0 <= k < |ps| && AttrOr(ps[k], "name") != "" && p == PropertyOf(ps[k])
  {
    var q := NamedPositions(ps, 0);
    var r := NodeProperties(ps, 0);
    forall k | 0 <= k < |ps| && AttrOr(ps[k], "name") != "" ensures PropertyOf(ps[k]) in r {
      var l :| 0 <= l < |q| && q[l] == k;
      assert r[l] == PropertyOf(ps[k]);
    }
    forall p | p in r
      ensures exists k :: 0 <= k < |ps| && AttrOr(ps[k], "name") != "" && p == PropertyOf(ps[k])
    {
      var l :| 0 <= l < |r| && r[l] == p;
      assert p == PropertyOf(ps[q[l]]);
    }
  }

  /** The node type an element declares: its tag, except that an end event with a terminate definition terminates. */
  function NodeTypeName(e: Element): (r: string)
    ensures e.tag == "endEvent" && (exists c :: c in e.children && c.tag == "terminateEventDefinition")
            ==> r == "terminateEvent"
    ensures !(e.tag == "endEvent" && (exists c :: c in e.children && c.tag == "terminateEventDefinition"))
            ==> r == e.tag
  {
    if e.tag == "endEvent" && SelectElement(e, "terminateEventDefinition").Some? then "terminateEvent" else e.tag
  }

  /** The first child with this tag of a node's first `extensionElements` child. */
  function ExtensionChild(e: Element, tag: string): (r: Option<Element>)
    ensures r.Some? ==> r.value.tag == tag
    ensures SelectElement(e, "extensionElements").None? ==> r.None?
  {
    match SelectElement(e, "extensionElements")
    case Some(ext) => SelectElement(ext, tag)
    case None => None
  }

  /**
   * ParseNode: type, id, name, candidate expression, node properties and
   * form of a node element. The form's fields are those of its `formData`
   * extension, in document order; its properties are the named `property`
   * elements of its `properties` extension, in document order.
   */
  function ParseNode(e: Element): (r: NodeInfo)
    ensures r.typeName == NodeTypeName(e) && r.code == AttrOr(e, "id") && r.name == AttrOr(e, "name")
    ensures SelectAttr(e, "candidateUsers").Some? ==> r.candidateUsers == [SelectAttr(e, "candidateUsers").value]
    ensures SelectAttr(e, "candidateUsers").None? ==> r.candidateUsers == []
    ensures r.formResult.id == AttrOr(e, "formKey")
    ensures forall p :: p in r.properties ==> p.name != ""
  {
    var fields :=
      match ExtensionChild(e, "formData")
      case Some(fd) => ParseFormData(fd).fields
      case None => [];
    var props :=
      match ExtensionChild(e, "properties")
      case Some(pd) => NodeProperties(SelectElements(pd, "property"), 0)
      case None => [];
    NodeInfo(
      NodeTypeName(e),
      AttrOr(e, "id"),
      AttrOr(e, "name"),
      match SelectAttr(e, "candidateUsers") case Some(v) => [v] case None => [],
      props,
      NodeFormResult(AttrOr(e, "formKey"), fields))
  }

  /**
   * The form fields of a node are those of its `formData` extension, one per
   * `formField` child in document order; its properties are those of the
   * named `property` children of its `properties` extension, in document
   * order. Without the extension element there are none.
   */
  lemma ParseNodeReadsExtensions(e: Element)
    ensures var r := ParseNode(e);
            && (ExtensionChild(e, "formData").None? ==> r.formResult.fields == [])
            && (ExtensionChild(e, "formData").Some? ==>
                  var fs := SelectElements(ExtensionChild(e, "formData").value, "formField");
                  && |r.formResult.fields| == |fs|
                  && forall k :: 0 <= k < |fs| ==> r.formResult.fields[k] == ParseField(fs[k]))
    ensures var r := ParseNode(e);
            && (ExtensionChild(e, "properties").None? ==> r.properties == [])
            && (ExtensionChild(e, "properties").Some? ==>
                  var ps := SelectElements(ExtensionChild(e, "properties").value, "property");
                  && |r.properties| == |NamedPositions(ps, 0)|
                  && forall k :: 0 <= k < |r.properties| ==> r.properties[k] == PropertyOf(ps[NamedPositions(ps, 0)[k]]))
  {
  }

  /** A node keeps the property of every named `property` element of its `properties` extension, and no other. */
  lemma ParseNodeKeepsNamedProperties(e: Element)
    requires ExtensionChild(e, "properties").Some?
    ensures var ps := SelectElements(ExtensionChild(e, "properties").value, "property");
            && (forall k :: 0 <= k < |ps| && AttrOr(ps[k], "name") != "" ==> PropertyOf(ps[k]) in ParseNode(e).properties)
            && (forall p :: p in ParseNode(e).properties ==>
                  exists k :: 0 <= k < |ps| && AttrOr(ps[k], "name") != "" && p == PropertyOf(ps[k]))
  {
    ParseNodeReadsExtensions(e);
    NodePropertiesKept(SelectElements(ExtensionChild(e, "properties").value, "property"));
  }

  /**
   * ParseSequenceFlow: the flow's ends, the text of its last
   * `conditionExpression` child ("" when there is none) and of its last
   * `documentation` child. A missing id, sourceRef or targetRef is a nil
   * dereference in the source, an error here.
   */
  function ParseSequenceFlow(e: Element): (r: Result<SequenceFlow>)
    ensures r.Err? <==> SelectAttr(e, "id").None? || SelectAttr(e, "sourceRef").None? || SelectAttr(e, "targetRef").None?
    ensures r.Ok? ==> r.value.sourceRef == SelectAttr(e, "sourceRef").value
                      && r.value.targetRef == SelectAttr(e, "targetRef").value
    ensures r.Ok? ==> r.value.expression == LastText(e.children, "conditionExpression").GetOr("")
                      && r.value.explain == LastText(e.children, "documentation").GetOr("")
  {
    match SelectAttr(e, "id")
    case None => Err(MissingAttr("id"))
    case Some(code) =>
      match SelectAttr(e, "sourceRef")
      case None => Err(MissingAttr("sourceRef"))
      case Some(source) =>
        match SelectAttr(e, "targetRef")
        case None => Err(MissingAttr("targetRef"))
        case Some(target) =>
          Ok(SequenceFlow(code, source, target, LastText(e.children, "documentation").GetOr(""),
                          LastText(e.children, "conditionExpression").GetOr("")))
  }

  /** The process children that are not nodes. */
  predicate Skipped(e: Element) {
    e.tag == "documentation" || e.tag == "extensionElements" || e.tag == "sequenceFlow"
  }

  /** The node result of a node element whose type is known, before routers are attached. */
  function ToNodeResult(info: NodeInfo, t: NodeType): (r: NodeResult)
    ensures r.nodeId == info.code && r.routers == []
  {
    NodeResult(info.code, info.name, t, info.candidateUsers, info.formResult, info.properties, [])
  }

  /** The router a parsed sequence flow contributes to its source node. */
  function ToRouterResult(sf: SequenceFlow): RouterResult {
    RouterResult(sf.targetRef, sf.expression, sf.explain)
  }

  /** What one child of the process is to the two passes of Parse. */
  datatype Child = Ignored | NodeChild(node: Result<NodeResult>) | FlowChild(flow: Result<SequenceFlow>)

  /**
   * A sequence flow is read by the second pass only; documentation and
   * extension elements by neither; every other child is a node, which is an
   * error when its type is unknown.
   */
  function Classify(e: Element): (r: Child)
    ensures r.FlowChild? <==> e.tag == "sequenceFlow"
    ensures r.FlowChild? ==> r.flow == ParseSequenceFlow(e)
    ensures r.NodeChild? <==> !Skipped(e)
    ensures r.NodeChild? ==> (r.node.Err? <==> ByName(NodeTypeName(e)).None?)
    ensures r.NodeChild? && r.node.Ok? ==> r.node.value == ToNodeResult(ParseNode(e), ByName(NodeTypeName(e)).value)
  {
    if e.tag == "sequenceFlow" then FlowChild(ParseSequenceFlow(e))
    else if Skipped(e) then Ignored
    else
      var info := ParseNode(e);
      match ByName(info.typeName)
      case None => NodeChild(Err(UnknownNodeType(info.typeName)))
      case Some(t) => NodeChild(Ok(ToNodeResult(info, t)))
  }

  function Children(cs: seq<Element>): (r: seq<Child>)
    ensures |r| == |cs| && forall k :: 0 <= k < |cs| ==> r[k] == Classify(cs[k])
  {
    seq(|cs|, k requires 0 <= k < |cs| => Classify(cs[k]))
  }

  /** Every node result is stored under its own id. */
  predicate KeyedById(m: map<string, NodeResult>) {
    forall k :: k in m ==> m[k].nodeId == k
  }

  /**
   * The first pass of Parse from child `i` on: every node is stored under
   * its id; a node of unknown type is an error.
   */
  function NodesFrom(items: seq<Child>, i: nat, acc: map<string, NodeResult>): Result<map<string, NodeResult>>
    requires i <= |items|
    decreases |items| - i
  {
    if i == |items| then Ok(acc)
    else match items[i]
      case NodeChild(Err(e)) => Err(e)
      case NodeChild(Ok(n)) => NodesFrom(items, i + 1, acc[n.nodeId := n])
      case _ => NodesFrom(items, i + 1, acc)
  }

  /**
   * The second pass of Parse from child `i` on: each sequence flow is
   * appended to the routers of its source node; a malformed one is an error.
   */
  function RoutersFrom(items: seq<Child>, i: nat, m: map<string, NodeResult>): Result<map<string, NodeResult>>
    requires i <= |items|
    decreases |items| - i
  {
    if i == |items| then Ok(m)
    else match items[i]
      case FlowChild(Err(e)) => Err(e)
      case FlowChild(Ok(sf)) => RoutersFrom(items, i + 1, Attach(m, sf))
      case _ => RoutersFrom(items, i + 1, m)
  }

  /** One sequence flow appended to the routers of its source node; dropped when no node has that id. */
  function Attach(m: map<string, NodeResult>, sf: SequenceFlow): map<string, NodeResult> {
    if sf.sourceRef in m then
      var n := m[sf.sourceRef];
      m[sf.sourceRef := n.(routers := n.routers + [ToRouterResult(sf)])]
    else m
  }

  /** Attach adds the flow to its source node only, at the end of its routers. */
  lemma AttachAppends(m: map<string, NodeResult>, sf: SequenceFlow, id: string)
    requires id in m
    ensures id in Attach(m, sf)
    ensures Attach(m, sf)[id] == m[id].(routers := m[id].routers + (if sf.sourceRef == id then [ToRouterResult(sf)] else []))
  {
  }

  /** Attach keeps the set of ids, and keeps every node stored under its own id. */
  lemma AttachKeepsKeys(m: map<string, NodeResult>, sf: SequenceFlow)
    ensures Attach(m, sf).Keys == m.Keys
    ensures KeyedById(m) ==> KeyedById(Attach(m, sf))
  {
  }

  /** The process header Parse reads before the nodes. */
  datatype Header = Header(flowId: string, flowName: string, flowVersion: int, flowStatus: int, process: Element)

  /**
   * The `definitions` and `process` elements and the process attributes:
   * FlowStatus is 1 exactly when `isExecutable` parses as true, else 2; a
   * `versionTag` that is not an integer is an error. A missing element is a
   * nil dereference in the source, an error here.
   */
  function ParseHeader(doc: Element): (r: Result<Header>)
    ensures r.Ok? ==> r.value.flowStatus == (if SelectAttr(r.value.process, "isExecutable").Some?
                                               && ParseBool(SelectAttr(r.value.process, "isExecutable").value) == Some(true)
                                             then 1 else 2)
    ensures r.Ok? && SelectAttr(r.value.process, "versionTag").None? ==> r.value.flowVersion == 0
    ensures r.Ok? && SelectAttr(r.value.process, "versionTag").Some? ==>
              ParseInt(SelectAttr(r.value.process, "versionTag").value) == Some(r.value.flowVersion)
    ensures r.Err? && SelectElement(doc, "definitions").Some? && SelectElement(SelectElement(doc, "definitions").value, "process").Some?
            ==> r.error.BadVersion?
  {
    match SelectElement(doc, "definitions")
    case None => Err(MissingElement("definitions"))
    case Some(root) =>
      match SelectElement(root, "process")
      case None => Err(MissingElement("process"))
      case Some(process) =>
        var status := match SelectAttr(process, "isExecutable")
                      case Some(v) => if ParseBool(v) == Some(true) then 1 else 2
                      case None => 2;
        match SelectAttr(process, "versionTag")
        case None => Ok(Header(AttrOr(process, "id"), AttrOr(process, "name"), 0, status, process))
        case Some(v) =>
          match ParseInt(v)
          case None => Err(BadVersion(v))
          case Some(version) => Ok(Header(AttrOr(process, "id"), AttrOr(process, "name"), version, status, process))
  }

  /** The node map both passes of Parse build, before it is listed. */
  function ParseSpec(doc: Element): Result<(Header, map<string, NodeResult>)> {
    var h :- ParseHeader(doc);
    var items := Children(h.process.children);
    var nodes :- NodesFrom(items, 0, map[]);
    var m :- RoutersFrom(items, 0, nodes);
    Ok((h, m))
  }

  /** `nodes` lists every entry of the node map exactly once, in some order. */
  predicate Enumerates(nodes: seq<NodeResult>, m: map<string, NodeResult>) {
    && |nodes| == |m.Keys|
    && (forall k :: 0 <= k < |nodes| ==> nodes[k].nodeId in m && m[nodes[k].nodeId] == nodes[k])
    && (forall j, k :: 0 <= j < k < |nodes| ==> nodes[j].nodeId != nodes[k].nodeId)
    && (forall id :: id in m ==> exists k :: 0 <= k < |nodes| && nodes[k].nodeId == id)
  }

  /**
   * Parse: the header, then the node map, then the routers, then the nodes
   * listed in the map's iteration order, which the language leaves
   * unspecified. Parsing a child has no effect, so each child is classified
   * once, before the two loops, rather than inside them.
   */
  method Parse(doc: Element) returns (r: Result<ParseResult>)
    ensures r.Err? <==> ParseSpec(doc).Err?
    ensures r.Ok? ==>
              var (h, m) := ParseSpec(doc).value;
              && r.value.flowId == h.flowId && r.value.flowName == h.flowName
              && r.value.flowVersion == h.flowVersion && r.value.flowStatus == h.flowStatus
              && Enumerates(r.value.nodes, m)
  {
    var header := ParseHeader(doc);
    if header.Err? {
      return Err(header.error);
    }
    var h := header.value;
    var items := Children(h.process.children);
    var nodes := NodePass(items);
    if nodes.Err? {
      return Err(nodes.error);
    }
    var routed := RouterPass(items, nodes.value);
    if routed.Err? {
      return Err(routed.error);
    }
    var list := ListNodes(routed.value);
    return Ok(ParseResult(h.flowId, h.flowName, h.flowVersion, h.flowStatus, list));
  }

  /**
   * The first loop of Parse over the classified children: documentation,
   * extension elements and sequence flows are skipped, every node is stored
   * under its id, and a node of unknown type stops the loop.
   */
  method NodePass(items: seq<Child>) returns (r: Result<map<string, NodeResult>>)
    ensures r == NodesFrom(items, 0, map[])
    ensures r.Ok? ==> KeyedById(r.value)
  {
    var nodeMap: map<string, NodeResult> := map[];
    for i := 0 to |items|
      invariant KeyedById(nodeMap)
      invariant NodesFrom(items, i, nodeMap) == NodesFrom(items, 0, map[])
    {
      match items[i] {
        case NodeChild(Err(e)) => return Err(e);
        case NodeChild(Ok(n)) => nodeMap := nodeMap[n.nodeId := n];
        case _ =>
      }
    }
    return Ok(nodeMap);
  }

  /** The second loop of Parse over the classified children: each sequence flow is attached to its source node; a bad flow stops it. */
  method RouterPass(items: seq<Child>, nodes: map<string, NodeResult>) returns (r: Result<map<string, NodeResult>>)
    requires KeyedById(nodes)
    ensures r == RoutersFrom(items, 0, nodes)
    ensures r.Ok? ==> KeyedById(r.value)
  {
    var nodeMap := nodes;
    for i := 0 to |items|
      invariant KeyedById(nodeMap)
      invariant RoutersFrom(items, i, nodeMap) == RoutersFrom(items, 0, nodes)
    {
      match items[i] {
        case FlowChild(Err(e)) => return Err(e);
        case FlowChild(Ok(sf)) =>
          AttachKeepsKeys(nodeMap, sf);
          nodeMap := Attach(nodeMap, sf);
        case _ =>
      }
    }
    return Ok(nodeMap);
  }

  /** The final loop of Parse: the map's values, each once, in an unspecified order. */
  method ListNodes(m: map<string, NodeResult>) returns (nodes: seq<NodeResult>)
    requires KeyedById(m)
    ensures Enumerates(nodes, m)
  {
    nodes := [];
    var rest := m.Keys;
    while rest != {}
      invariant rest <= m.Keys
      invariant |nodes| + |rest| == |m.Keys|
      invariant forall k :: 0 <= k < |nodes| ==> nodes[k].nodeId in m && m[nodes[k].nodeId] == nodes[k]
                                                 && nodes[k].nodeId !in rest
      invariant forall j, k :: 0 <= j < k < |nodes| ==> nodes[j].nodeId != nodes[k].nodeId
      invariant forall id :: id in m && id !in rest ==> exists k :: 0 <= k < |nodes| && nodes[k].nodeId == id
      decreases |rest|
    {
      var id :| id in rest;
      ghost var before := nodes;
      nodes := nodes + [m[id]];
      rest := rest - {id};
      assert nodes[|nodes| - 1].nodeId == id;
      assert forall k :: 0 <= k < |before| ==> nodes[k] == before[k];
    }
  }

  /** Child `j` is a node with this id, and no later child is. */
  predicate LastWithId(items: seq<Child>, j: nat, id: string)
    requires j < |items|
  {
    && items[j].NodeChild? && items[j].node.Ok? && items[j].node.value.nodeId == id
    && forall k :: j < k < |items| && items[k].NodeChild? && items[k].node.Ok? ==> items[k].node.value.nodeId != id
  }

  /** The first pass fails exactly when some node from child `i` on has an unknown type. */
  lemma {:induction false} NodesFromFails(items: seq<Child>, i: nat, acc: map<string, NodeResult>)
    requires i <= |items|
    ensures NodesFrom(items, i, acc).Err? <==>
              exists j :: i <= j < |items| && items[j].NodeChild? && items[j].node.Err?
    decreases |items| - i
  {
    if i < |items| {
      if items[i].NodeChild? && items[i].node.Ok? {
        var n := items[i].node.value;
        NodesFromFails(items, i + 1, acc[n.nodeId := n]);
      } else if !items[i].NodeChild? {
        NodesFromFails(items, i + 1, acc);
      }
    }
  }

  /** The second pass fails exactly when some sequence flow from child `i` on is malformed. */
  lemma {:induction false} RoutersFromFails(items: seq<Child>, i: nat, m: map<string, NodeResult>)
    requires i <= |items|
    ensures RoutersFrom(items, i, m).Err? <==>
              exists j :: i <= j < |items| && items[j].FlowChild? && items[j].flow.Err?
    decreases |items| - i
  {
    if i < |items| {
      if items[i].FlowChild? && items[i].flow.Ok? {
        RoutersFromFails(items, i + 1, Attach(m, items[i].flow.value));
      } else if !items[i].FlowChild? {
        RoutersFromFails(items, i + 1, m);
      }
    }
  }

  /**
   * The first pass keeps, for each id, the node that carries it last: a
   * later duplicate id replaces an earlier one.
   */
  lemma {:induction false} NodesFromLastWins(items: seq<Child>, i: nat, acc: map<string, NodeResult>, id: string, j: nat)
    requires i <= j < |items| && LastWithId(items, j, id)
    requires NodesFrom(items, i, acc).Ok?
    ensures id in NodesFrom(items, i, acc).value
    ensures NodesFrom(items, i, acc).value[id] == items[j].node.value
    decreases |items| - i
  {
    if i == j {
      NodesFromKeeps(items, i + 1, acc[id := items[j].node.value], id);
    } else {
      if items[i].NodeChild? {
        var n := items[i].node.value;
        NodesFromLastWins(items, i + 1, acc[n.nodeId := n], id, j);
      } else {
        NodesFromLastWins(items, i + 1, acc, id, j);
      }
    }
  }

  /** An id that no node from child `i` on carries keeps its entry through the first pass. */
  lemma {:induction false} NodesFromKeeps(items: seq<Child>, i: nat, acc: map<string, NodeResult>, id: string)
    requires i <= |items| && id in acc
    requires forall k :: i <= k < |items| && items[k].NodeChild? && items[k].node.Ok? ==> items[k].node.value.nodeId != id
    requires NodesFrom(items, i, acc).Ok?
    ensures id in NodesFrom(items, i, acc).value && NodesFrom(items, i, acc).value[id] == acc[id]
    decreases |items| - i
  {
    if i < |items| {
      if items[i].NodeChild? {
        var n := items[i].node.value;
        NodesFromKeeps(items, i + 1, acc[n.nodeId := n], id);
      } else {
        NodesFromKeeps(items, i + 1, acc, id);
      }
    }
  }

  /** The first pass stores only ids of nodes it saw, or that were already stored. */
  lemma {:induction false} NodesFromOnlySeen(items: seq<Child>, i: nat, acc: map<string, NodeResult>, id: string)
    requires i <= |items|
    requires NodesFrom(items, i, acc).Ok? && id in NodesFrom(items, i, acc).value
    ensures id in acc || exists k :: i <= k < |items| && items[k].NodeChild? && items[k].node.Ok? && items[k].node.value.nodeId == id
    decreases |items| - i
  {
    if i < |items| {
      if items[i].NodeChild? {
        var n := items[i].node.value;
        NodesFromOnlySeen(items, i + 1, acc[n.nodeId := n], id);
      } else {
        NodesFromOnlySeen(items, i + 1, acc, id);
      }
    }
  }

  /** The routers the sequence flows from child `i` on contribute to node `id`, in document order. */
  function FlowsFrom(items: seq<Child>, i: nat, id: string): seq<RouterResult>
    requires i <= |items|
    decreases |items| - i
  {
    if i == |items| then []
    else if items[i].FlowChild? && items[i].flow.Ok? && items[i].flow.value.sourceRef == id
    then [ToRouterResult(items[i].flow.value)] + FlowsFrom(items, i + 1, id)
    else FlowsFrom(items, i + 1, id)
  }

  /**
   * The second pass appends to each node exactly the sequence flows whose
   * source is that node, in document order, and changes nothing else about it.
   */
  lemma {:induction false} RoutersFromAppends(items: seq<Child>, i: nat, m: map<string, NodeResult>, id: string)
    requires i <= |items|
    requires RoutersFrom(items, i, m).Ok? && id in m
    ensures id in RoutersFrom(items, i, m).value
    ensures RoutersFrom(items, i, m).value[id] == m[id].(routers := m[id].routers + FlowsFrom(items, i, id))
    decreases |items| - i
  {
    if i < |items| {
      var rest := FlowsFrom(items, i + 1, id);
      if items[i].FlowChild? {
        var sf := items[i].flow.value;
        AttachAppends(m, sf, id);
        RoutersFromAppends(items, i + 1, Attach(m, sf), id);
        var own := if sf.sourceRef == id then [ToRouterResult(sf)] else [];
        assert m[id].routers + own + rest == m[id].routers + (own + rest);
      } else {
        RoutersFromAppends(items, i + 1, m, id);
      }
    }
  }

  /** The second pass adds and removes no ids. */
  lemma {:induction false} RoutersFromKeepsKeys(items: seq<Child>, i: nat, m: map<string, NodeResult>)
    requires i <= |items|
    requires RoutersFrom(items, i, m).Ok?
    ensures RoutersFrom(items, i, m).value.Keys == m.Keys
    decreases |items| - i
  {
    if i < |items| {
      if items[i].FlowChild? {
        var sf := items[i].flow.value;
        AttachKeepsKeys(m, sf);
        RoutersFromKeepsKeys(items, i + 1, Attach(m, sf));
      } else {
        RoutersFromKeepsKeys(items, i + 1, m);
      }
    }
  }

  /**
   * After both passes, each id is held by the last node child with that id,
   * carrying as routers the sequence flows out of it in document order; no
   * id that no node child carries is held.
   */
  lemma PassesKeepLastWithFlows(items: seq<Child>, id: string)
    requires NodesFrom(items, 0, map[]).Ok?
    requires RoutersFrom(items, 0, NodesFrom(items, 0, map[]).value).Ok?
    ensures var m := RoutersFrom(items, 0, NodesFrom(items, 0, map[]).value).value;
            && (id in m ==> exists j :: 0 <= j < |items| && LastWithId(items, j, id))
            && (forall j :: 0 <= j < |items| && LastWithId(items, j, id) ==>
                  var n := items[j].node.value;
                  id in m && m[id] == n.(routers := n.routers + FlowsFrom(items, 0, id)))
  {
    var nodes := NodesFrom(items, 0, map[]).value;
    RoutersFromKeepsKeys(items, 0, nodes);
    if id in nodes {
      NodesFromOnlySeen(items, 0, map[], id);
      var k :| 0 <= k < |items| && items[k].NodeChild? && items[k].node.Ok? && items[k].node.value.nodeId == id;
      var j := LastOccurrence(items, k, id);
    }
    forall j | 0 <= j < |items| && LastWithId(items, j, id)
      ensures id in RoutersFrom(items, 0, nodes).value
      ensures var n := items[j].node.value;
              RoutersFrom(items, 0, nodes).value[id] == n.(routers := n.routers + FlowsFrom(items, 0, id))
    {
      NodesFromLastWins(items, 0, map[], id, j);
      RoutersFromAppends(items, 0, nodes, id);
    }
  }

  /** From a node with this id at `k`, the last one at or after `k`. */
  lemma {:induction false} LastOccurrence(items: seq<Child>, k: nat, id: string) returns (j: nat)
    requires k < |items| && items[k].NodeChild? && items[k].node.Ok? && items[k].node.value.nodeId == id
    ensures k <= j < |items| && LastWithId(items, j, id)
    decreases |items| - k
  {
    if exists k' :: k < k' < |items| && items[k'].NodeChild? && items[k'].node.Ok? && items[k'].node.value.nodeId == id {
      var k' :| k < k' < |items| && items[k'].NodeChild? && items[k'].node.Ok? && items[k'].node.value.nodeId == id;
      j := LastOccurrence(items, k', id);
    } else {
      j := k;
    }
  }
}
