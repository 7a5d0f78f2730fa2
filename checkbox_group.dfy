/** `initializeCheckboxGroup` of src/scripts/checkboxGroup.js: a parent checkbox and its
    children. The parent's change handler copies its `checked` to every child; a child's
    change handler marks the parent checked when all children are, and indeterminate when
    some but not all are. The checkboxes are objects whose fields the handlers assign; the
    browser's own toggling of a clicked box, which fires the change event, is outside. */
module CheckboxGroup {

  import opened Wrappers

  /** A checkbox input: its `checked` and `indeterminate` properties. */
  class Checkbox {
    var checked: bool
    var indeterminate: bool

    constructor (checked: bool)
      ensures this.checked == checked && !indeterminate
    {
      this.checked := checked;
      indeterminate := false;
    }
  }

  /** The `checked` values of the boxes, in document order. */
  function CheckedStates(boxes: seq<Checkbox>): (states: seq<bool>)
    reads boxes
    ensures |states| == |boxes| && forall i :: 0 <= i < |boxes| ==> states[i] == boxes[i].checked
  {
    if boxes == [] then [] else [boxes[0].checked] + CheckedStates(boxes[1..])
  }

  /** `every((cb) => cb.checked)` */
  function AllChecked(states: seq<bool>): (r: bool)
    ensures r <==> forall i :: 0 <= i < |states| ==> states[i]
  {
    if states == [] then true else states[0] && AllChecked(states[1..])
  }

  /** `some((cb) => cb.checked)` */
  function AnyChecked(states: seq<bool>): (r: bool)
    ensures r <==> exists i :: 0 <= i < |states| && states[i]
  {
    if states == [] then false
    else
      assert forall i :: 1 <= i < |states| ==> states[i] == states[1..][i - 1];
      states[0] || AnyChecked(states[1..])
  }

  /** What a child's change handler gives the parent. */
  datatype Mark = Mark(checked: bool, indeterminate: bool)

  /** The parent's mark for the children's states: checked when all are, indeterminate when
      some are and some are not; never both. */
  function ParentMark(states: seq<bool>): (m: Mark)
    ensures m.checked <==> forall i :: 0 <= i < |states| ==> states[i]
    ensures m.indeterminate <==> (exists i :: 0 <= i < |states| && states[i])
                                 && (exists i :: 0 <= i < |states| && !states[i])
    ensures !(m.checked && m.indeterminate)
  {
    var all := AllChecked(states);
    var some := AnyChecked(states);
    Mark(all, some && !all)
  }

  /** After the parent's handler made every child agree with it, a child's handler (with no
      click between) gives the parent back its own state, not indeterminate. */
  lemma UniformMark(states: seq<bool>, v: bool)
    requires states != [] && forall i :: 0 <= i < |states| ==> states[i] == v
    ensures ParentMark(states) == Mark(v, false)
  {
    if !v {
      assert !states[0];
    }
  }

  /** With mixed children the parent is unchecked and indeterminate. */
  lemma MixedMark(states: seq<bool>, i: nat, j: nat)
    requires i < |states| && j < |states| && states[i] && !states[j]
    ensures ParentMark(states) == Mark(false, true)
  {
  }

  /** A wired group: the parent and the children `querySelectorAll` found. */
  class Group {
    const parent: Checkbox
    const children: seq<Checkbox>

    constructor (parent: Checkbox, children: seq<Checkbox>)
      ensures this.parent == parent && this.children == children
    {
      this.parent := parent;
      this.children := children;
    }

    /** The parent's change handler: each child takes the parent's `checked`; nothing else
        changes. */
    method OnParentChange()
      modifies children
      ensures forall i :: 0 <= i < |children| ==> children[i].checked == parent.checked
      ensures parent.checked == old(parent.checked)
      ensures forall i :: 0 <= i < |children| ==> children[i].indeterminate == old(children[i].indeterminate)
      ensures parent.indeterminate == old(parent.indeterminate)
    {
      var v := parent.checked;
      for i := 0 to |children|
        invariant parent.checked == v
        invariant forall j :: 0 <= j < i ==> children[j].checked == v
        invariant forall j :: 0 <= j < |children| ==> children[j].indeterminate == old(children[j].indeterminate)
        invariant parent.indeterminate == old(parent.indeterminate)
      {
        children[i].checked := v;
      }
    }

    /** A child's change handler: the parent's mark follows the children's states as they
        were when the event fired. */
    method OnChildChange()
      modifies parent
      ensures parent.checked == ParentMark(old(CheckedStates(children))).checked
      ensures parent.indeterminate == ParentMark(old(CheckedStates(children))).indeterminate
      ensures !(parent.checked && parent.indeterminate)
    {
      var states := CheckedStates(children);
      var allChecked := AllChecked(states);
      var someChecked := AnyChecked(states);
      parent.checked := allChecked;
      parent.indeterminate := someChecked && !allChecked;
    }
  }

  /** `initializeCheckboxGroup`: the handlers are wired only when the parent was found and
      at least one child matched. */
  method Initialize(parent: Option<Checkbox>, children: seq<Checkbox>) returns (g: Option<Group>)
    ensures g.Some? <==> parent.Some? && children != []
    ensures g.Some? ==> fresh(g.value) && g.value.parent == parent.value && g.value.children == children
  {
    if parent.Some? && |children| > 0 {
      var group := new Group(parent.value, children);
      g := Some(group);
    } else {
      g := None;
    }
  }
}
