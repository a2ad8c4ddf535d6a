/**
 * The record groups built by a deployment and written by CreateFlow:
 * the node groups (nodes, routers, assignments, properties) and the form
 * groups (forms, fields, options, field properties, validations), and their
 * flattening into the single list handed to one insert statement.
 */
module Operating {
  import opened Model

  function NodeRows(s: seq<Node>): (r: seq<Row>)
    ensures |r| == |s|
  {
    seq(|s|, i requires 0 <= i < |s| => NodeRow(s[i]))
  }

  function RouterRows(s: seq<NodeRouter>): (r: seq<Row>)
    ensures |r| == |s|
  {
    seq(|s|, i requires 0 <= i < |s| => RouterRow(s[i]))
  }

  function AssignmentRows(s: seq<NodeAssignment>): (r: seq<Row>)
    ensures |r| == |s|
  {
    seq(|s|, i requires 0 <= i < |s| => AssignmentRow(s[i]))
  }

  function PropertyRows(s: seq<NodeProperty>): (r: seq<Row>)
    ensures |r| == |s|
  {
    seq(|s|, i requires 0 <= i < |s| => PropertyRow(s[i]))
  }

  function FormRows(s: seq<Form>): (r: seq<Row>)
    ensures |r| == |s|
  {
    seq(|s|, i requires 0 <= i < |s| => FormRow(s[i]))
  }

  function FieldRows(s: seq<FormField>): (r: seq<Row>)
    ensures |r| == |s|
  {
    seq(|s|, i requires 0 <= i < |s| => FieldRow(s[i]))
  }

  function OptionRows(s: seq<FieldOption>): (r: seq<Row>)
    ensures |r| == |s|
  {
    seq(|s|, i requires 0 <= i < |s| => OptionRow(s[i]))
  }

  function FieldPropertyRows(s: seq<FieldProperty>): (r: seq<Row>)
    ensures |r| == |s|
  {
    seq(|s|, i requires 0 <= i < |s| => FieldPropertyRow(s[i]))
  }

  function ValidationRows(s: seq<FieldValidation>): (r: seq<Row>)
    ensures |r| == |s|
  {
    seq(|s|, i requires 0 <= i < |s| => ValidationRow(s[i]))
  }

  /** The node records of one deployment. */
  datatype NodeOperating = NodeOperating(
    nodeGroup: seq<Node>,
    routerGroup: seq<NodeRouter>,
    assignmentGroup: seq<NodeAssignment>,
    propertyGroup: seq<NodeProperty>)
  {
    /** The groups in the order they are inserted. */
    function Flattened(): seq<Row> {
      NodeRows(nodeGroup) + RouterRows(routerGroup) + AssignmentRows(assignmentGroup) + PropertyRows(propertyGroup)
    }

    /** Each group occupies its own segment of Flattened, in the group's order. */
    lemma Layout()
      ensures var g := Flattened();
              && |g| == |nodeGroup| + |routerGroup| + |assignmentGroup| + |propertyGroup|
              && (forall i :: 0 <= i < |nodeGroup| ==> g[i] == NodeRow(nodeGroup[i]))
              && (forall i :: 0 <= i < |routerGroup| ==> g[|nodeGroup| + i] == RouterRow(routerGroup[i]))
              && (forall i :: 0 <= i < |assignmentGroup| ==>
                    g[|nodeGroup| + |routerGroup| + i] == AssignmentRow(assignmentGroup[i]))
              && (forall i :: 0 <= i < |propertyGroup| ==>
                    g[|nodeGroup| + |routerGroup| + |assignmentGroup| + i] == PropertyRow(propertyGroup[i]))
    {
    }

    /**
     * All: every node, then every router, then every assignment, then every
     * property, each group in its own order.
     */
    method All() returns (group: seq<Row>)
      ensures group == Flattened()
      ensures |group| == |nodeGroup| + |routerGroup| + |assignmentGroup| + |propertyGroup|
      ensures group == [] <==> nodeGroup == [] && routerGroup == [] && assignmentGroup == [] && propertyGroup == []
      ensures forall i :: 0 <= i < |nodeGroup| ==> group[i] == NodeRow(nodeGroup[i])
      ensures forall i :: 0 <= i < |routerGroup| ==>
                group[|nodeGroup| + i] == RouterRow(routerGroup[i])
      ensures forall i :: 0 <= i < |assignmentGroup| ==>
                group[|nodeGroup| + |routerGroup| + i] == AssignmentRow(assignmentGroup[i])
      ensures forall i :: 0 <= i < |propertyGroup| ==>
                group[|nodeGroup| + |routerGroup| + |assignmentGroup| + i] == PropertyRow(propertyGroup[i])
    {
      group := [];
      for i := 0 to |nodeGroup|
        invariant group == NodeRows(nodeGroup[..i])
      {
        group := group + [NodeRow(nodeGroup[i])];
      }
      assert nodeGroup[..|nodeGroup|] == nodeGroup;
      ghost var prefix := group;
      for i := 0 to |routerGroup|
        invariant group == prefix + RouterRows(routerGroup[..i])
      {
        group := group + [RouterRow(routerGroup[i])];
      }
      assert routerGroup[..|routerGroup|] == routerGroup;
      prefix := group;
      for i := 0 to |assignmentGroup|
        invariant group == prefix + AssignmentRows(assignmentGroup[..i])
      {
        group := group + [AssignmentRow(assignmentGroup[i])];
      }
      assert assignmentGroup[..|assignmentGroup|] == assignmentGroup;
      prefix := group;
      for i := 0 to |propertyGroup|
        invariant group == prefix + PropertyRows(propertyGroup[..i])
      {
        group := group + [PropertyRow(propertyGroup[i])];
      }
      assert propertyGroup[..|propertyGroup|] == propertyGroup;
      Layout();
    }
  }

  /** The form records of one deployment. */
  datatype FormOperating = FormOperating(
    formGroup: seq<Form>,
    formFieldGroup: seq<FormField>,
    fieldOptionGroup: seq<FieldOption>,
    fieldPropertyGroup: seq<FieldProperty>,
    fieldValidationGroup: seq<FieldValidation>)
  {
    /** The groups in the order they are inserted. */
    function Flattened(): seq<Row> {
      FormRows(formGroup) + FieldRows(formFieldGroup) + OptionRows(fieldOptionGroup)
        + FieldPropertyRows(fieldPropertyGroup) + ValidationRows(fieldValidationGroup)
    }

    /** Each group occupies its own segment of Flattened, in the group's order. */
    lemma Layout()
      ensures var g := Flattened();
              && |g| == |formGroup| + |formFieldGroup| + |fieldOptionGroup| + |fieldPropertyGroup| + |fieldValidationGroup|
              && (forall i :: 0 <= i < |formGroup| ==> g[i] == FormRow(formGroup[i]))
              && (forall i :: 0 <= i < |formFieldGroup| ==> g[|formGroup| + i] == FieldRow(formFieldGroup[i]))
              && (forall i :: 0 <= i < |fieldOptionGroup| ==>
                    g[|formGroup| + |formFieldGroup| + i] == OptionRow(fieldOptionGroup[i]))
              && (forall i :: 0 <= i < |fieldPropertyGroup| ==>
                    g[|formGroup| + |formFieldGroup| + |fieldOptionGroup| + i] == FieldPropertyRow(fieldPropertyGroup[i]))
              && (forall i :: 0 <= i < |fieldValidationGroup| ==>
                    g[|formGroup| + |formFieldGroup| + |fieldOptionGroup| + |fieldPropertyGroup| + i]
                    == ValidationRow(fieldValidationGroup[i]))
    {
    }

    /**
     * All: every form, then every field, then every option, then every field
     * property, then every validation, each group in its own order.
     */
    method All() returns (group: seq<Row>)
      ensures group == Flattened()
      ensures |group| == |formGroup| + |formFieldGroup| + |fieldOptionGroup| + |fieldPropertyGroup| + |fieldValidationGroup|
      ensures group == [] <==>
                formGroup == [] && formFieldGroup == [] && fieldOptionGroup == [] &&
                fieldPropertyGroup == [] && fieldValidationGroup == []
      ensures forall i :: 0 <= i < |formGroup| ==> group[i] == FormRow(formGroup[i])
      ensures forall i :: 0 <= i < |formFieldGroup| ==>
                group[|formGroup| + i] == FieldRow(formFieldGroup[i])
      ensures forall i :: 0 <= i < |fieldOptionGroup| ==>
                group[|formGroup| + |formFieldGroup| + i] == OptionRow(fieldOptionGroup[i])
      ensures forall i :: 0 <= i < |fieldPropertyGroup| ==>
                group[|formGroup| + |formFieldGroup| + |fieldOptionGroup| + i] == FieldPropertyRow(fieldPropertyGroup[i])
      ensures forall i :: 0 <= i < |fieldValidationGroup| ==>
                group[|formGroup| + |formFieldGroup| + |fieldOptionGroup| + |fieldPropertyGroup| + i]
                == ValidationRow(fieldValidationGroup[i])
    {
      group := [];
      for i := 0 to |formGroup|
        invariant group == FormRows(formGroup[..i])
      {
        group := group + [FormRow(formGroup[i])];
      }
      assert formGroup[..|formGroup|] == formGroup;
      ghost var prefix := group;
      for i := 0 to |formFieldGroup|
        invariant group == prefix + FieldRows(formFieldGroup[..i])
      {
        group := group + [FieldRow(formFieldGroup[i])];
      }
      assert formFieldGroup[..|formFieldGroup|] == formFieldGroup;
      prefix := group;
      for i := 0 to |fieldOptionGroup|
        invariant group == prefix + OptionRows(fieldOptionGroup[..i])
      {
        group := group + [OptionRow(fieldOptionGroup[i])];
      }
      assert fieldOptionGroup[..|fieldOptionGroup|] == fieldOptionGroup;
      prefix := group;
      for i := 0 to |fieldPropertyGroup|
        invariant group == prefix + FieldPropertyRows(fieldPropertyGroup[..i])
      {
        group := group + [FieldPropertyRow(fieldPropertyGroup[i])];
      }
      assert fieldPropertyGroup[..|fieldPropertyGroup|] == fieldPropertyGroup;
      prefix := group;
      for i := 0 to |fieldValidationGroup|
        invariant group == prefix + ValidationRows(fieldValidationGroup[..i])
      {
        group := group + [ValidationRow(fieldValidationGroup[i])];
      }
      assert fieldValidationGroup[..|fieldValidationGroup|] == fieldValidationGroup;
      Layout();
    }
  }
}
