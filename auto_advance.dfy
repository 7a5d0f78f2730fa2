/** `createAutoAdvanceManager` of frontend/src/components/utils/autoAdvanceUtils.ts: the
    focusable elements of the signup form in document order, the element after the current
    one, and the listener that moves the focus there once the phone number turns valid. The
    document's elements and their computed styles are passed in as values; the focus is a
    class whose field the listener assigns. */
module AutoAdvance {

  import opened Wrappers

  /** An element of the form as the selector and the computed style see it. `id` stands for
      the element's identity. */
  datatype Element = Element(id: nat, tag: string, inputType: string, disabled: bool,
                             display: string, visibility: string)

  const PhoneEvent: string := "phone_validation_change"

  /** `input:not([type="hidden"]):not([disabled]), select, textarea, button:not([disabled])` */
  predicate Selected(e: Element) {
    (e.tag == "input" && e.inputType != "hidden" && !e.disabled)
    || e.tag == "select" || e.tag == "textarea"
    || (e.tag == "button" && !e.disabled)
  }

  /** Shown: neither `display: none` nor `visibility: hidden`. */
  predicate Visible(e: Element) {
    e.display != "none" && e.visibility != "hidden"
  }

  predicate Focusable(e: Element) {
    Selected(e) && Visible(e)
  }

  /** The form's matching, visible elements in document order. */
  function Filter(elements: seq<Element>): (r: seq<Element>)
    ensures |r| <= |elements|
    ensures forall e :: e in r <==> e in elements && Focusable(e)
  {
    if elements == [] then []
    else (if Focusable(elements[0]) then [elements[0]] else []) + Filter(elements[1..])
  }

  /** Filtering keeps document order: the result for a concatenation is the concatenation
      of the results. */
  lemma {:induction false} FilterAppend(xs: seq<Element>, ys: seq<Element>)
    ensures Filter(xs + ys) == Filter(xs) + Filter(ys)
  {
    if xs == [] {
      assert xs + ys == ys;
    } else {
      assert (xs + ys)[0] == xs[0];
      assert (xs + ys)[1..] == xs[1..] + ys;
      FilterAppend(xs[1..], ys);
    }
  }

  /** `getFocusableElements`: no form, no elements. */
  function FocusableElements(form: Option<seq<Element>>): (r: seq<Element>)
    ensures form.None? ==> r == []
    ensures form.Some? ==> forall e :: e in r <==> e in form.value && Focusable(e)
  {
    if form.None? then [] else Filter(form.value)
  }

  /** `indexOf`: the first index holding the element, -1 when none does. */
  function IndexOf(xs: seq<Element>, x: Element): (k: int)
    ensures -1 <= k < |xs|
    ensures k == -1 <==> x !in xs
    ensures k >= 0 ==> xs[k] == x && forall j :: 0 <= j < k ==> xs[j] != x
  {
    if xs == [] then -1
    else if xs[0] == x then 0
    else
      var k := IndexOf(xs[1..], x);
      if k == -1 then -1 else k + 1
  }

  /** `findNextFocusableElement` over the focusable list: null when the element is absent
      or last, else the one after its first occurrence. */
  function FindNext(focusable: seq<Element>, current: Element): (r: Option<Element>)
    ensures r.None? <==> current !in focusable || IndexOf(focusable, current) == |focusable| - 1
    ensures r.Some? ==> r.value == focusable[IndexOf(focusable, current) + 1]
  {
    var k := IndexOf(focusable, current);
    if k == -1 || k == |focusable| - 1 then None else Some(focusable[k + 1])
  }

  predicate Distinct(xs: seq<Element>) {
    forall i, j :: 0 <= i < j < |xs| ==> xs[i] != xs[j]
  }

  /** In a list without repeats, the element after position `i` is found for every
      position but the last, and the last has none. */
  lemma FindNextAt(xs: seq<Element>, i: nat)
    requires Distinct(xs) && i < |xs|
    ensures FindNext(xs, xs[i]) == if i == |xs| - 1 then None else Some(xs[i + 1])
  {
    assert IndexOf(xs, xs[i]) == i;
  }

  /** Following the next element from the first visits the whole list in order. */
  lemma {:induction false} NextChain(xs: seq<Element>, i: nat)
    requires Distinct(xs) && i < |xs|
    ensures forall j :: i <= j < |xs| - 1 ==> FindNext(xs, xs[j]) == Some(xs[j + 1])
  {
    forall j | i <= j < |xs| - 1
      ensures FindNext(xs, xs[j]) == Some(xs[j + 1])
    {
      FindNextAt(xs, j);
    }
  }

  /** The document's focus. */
  class Focus {
    var focused: Option<Element>

    constructor (focused: Option<Element>)
      ensures this.focused == focused
    {
      this.focused := focused;
    }

    /** `focus()` */
    method Give(e: Element)
      modifies this
      ensures focused == Some(e)
    {
      focused := Some(e);
    }
  }

  /** Where the listener of `setupAutoAdvance` sends the focus for an event, if anywhere:
      only a phone validation event whose `detail.isValid` is true, on a page that has the
      phone input, moves it, and only to an element after the phone input. The source tests
      `detail?.isValid` for truthiness; the detail is modelled as a boolean or nothing. */
  function AdvanceTarget(eventName: string, isValid: Option<bool>, phoneInput: Option<Element>,
                         form: Option<seq<Element>>): (r: Option<Element>)
    ensures r.Some? ==> eventName == PhoneEvent && isValid == Some(true) && phoneInput.Some?
    ensures r.Some? ==> r.value in FocusableElements(form) && phoneInput.value in FocusableElements(form)
  {
    if eventName == PhoneEvent && isValid == Some(true) && phoneInput.Some? then
      FindNext(FocusableElements(form), phoneInput.value)
    else None
  }

  /** The listener: the focus moves to the target when there is one and stays otherwise. */
  method OnDocumentEvent(focus: Focus, eventName: string, isValid: Option<bool>, phoneInput: Option<Element>,
                         form: Option<seq<Element>>)
    modifies focus
    ensures AdvanceTarget(eventName, isValid, phoneInput, form).Some? ==>
              focus.focused == AdvanceTarget(eventName, isValid, phoneInput, form)
    ensures AdvanceTarget(eventName, isValid, phoneInput, form).None? ==> focus.focused == old(focus.focused)
  {
    if eventName == PhoneEvent && isValid == Some(true) {
      if phoneInput.Some? {
        var next := FindNext(FocusableElements(form), phoneInput.value);
        if next.Some? {
          focus.Give(next.value);
        }
      }
    }
  }

  /** A valid phone number moves the focus to the focusable element right after the phone
      input, when the phone input is focusable and not last. */
  lemma ValidPhoneAdvances(phoneInput: Element, form: seq<Element>, i: nat)
    requires Distinct(FocusableElements(Some(form))) && i + 1 < |FocusableElements(Some(form))|
    requires FocusableElements(Some(form))[i] == phoneInput
    ensures AdvanceTarget(PhoneEvent, Some(true), Some(phoneInput), Some(form))
            == Some(FocusableElements(Some(form))[i + 1])
  {
    FindNextAt(FocusableElements(Some(form)), i);
  }
}
