/** The toast helpers of src/components/utils/toastUtils.ts and its JavaScript twin
    src/components/utils/toastUtils.js: a validation state maps field names to a validity
    flag and a label; the validation toast names the invalid fields, in the order
    `Object.values` lists them, and no toast is made when every field is valid. */
module Toast {

  import opened Wrappers
  import opened Text
  import opened JsObjects

  datatype ValidationField = ValidationField(isValid: bool, labelText: string)

  /** The validation state object: field name to field state. */
  type ValidationState = Object<ValidationField>

  datatype ToastType = Success | Error | Warning | Info

  datatype ToastDetail = ToastDetail(message: string, kind: ToastType)

  /** A `CustomEvent` with its name and detail. */
  datatype ToastEvent = ToastEvent(name: string, detail: ToastDetail)

  const EventName: string := "toast-show"
  const MessagePrefix: string := "Please provide a "
  const MessageSuffix: string := " before submitting."
  const LabelSeparator: string := " and "

  /** `.filter((field) => !field.isValid).map((field) => field.labelText)` */
  function MissingLabels(fields: seq<ValidationField>): (labels: seq<string>)
    ensures |labels| <= |fields|
  {
    if fields == [] then []
    else (if fields[0].isValid then [] else [fields[0].labelText]) + MissingLabels(fields[1..])
  }

  /** The labels are those of the invalid fields and only those; there are none exactly
      when every field is valid. */
  lemma {:induction false} MissingLabelsMeaning(fields: seq<ValidationField>)
    ensures MissingLabels(fields) == [] <==> forall i :: 0 <= i < |fields| ==> fields[i].isValid
    ensures forall i :: 0 <= i < |fields| && !fields[i].isValid ==> fields[i].labelText in MissingLabels(fields)
    ensures forall l :: l in MissingLabels(fields) ==> exists i :: 0 <= i < |fields| && !fields[i].isValid && fields[i].labelText == l
  {
    if fields != [] {
      MissingLabelsMeaning(fields[1..]);
      assert forall i :: 1 <= i < |fields| ==> fields[i] == fields[1..][i - 1];
    }
  }

  /** The labels keep the fields' order: the labels of a concatenation are the labels of
      its parts, one after the other. */
  lemma {:induction false} MissingLabelsAppend(xs: seq<ValidationField>, ys: seq<ValidationField>)
    ensures MissingLabels(xs + ys) == MissingLabels(xs) + MissingLabels(ys)
  {
    if xs == [] {
      assert xs + ys == ys;
    } else {
      assert (xs + ys)[0] == xs[0];
      assert (xs + ys)[1..] == xs[1..] + ys;
      MissingLabelsAppend(xs[1..], ys);
    }
  }

  /** The message of the validation toast. */
  function ValidationMessage(labels: seq<string>): (m: string)
    ensures StartsWith(m, MessagePrefix) && EndsWith(m, MessageSuffix)
    ensures |m| == |MessagePrefix| + |Join(labels, LabelSeparator)| + |MessageSuffix|
  {
    MessagePrefix + Join(labels, LabelSeparator) + MessageSuffix
  }

  /** The message gives back the joined labels between its fixed prefix and suffix. */
  lemma ValidationMessageJoined(labels: seq<string>)
    ensures var m := ValidationMessage(labels);
            m[|MessagePrefix|..|m| - |MessageSuffix|] == Join(labels, LabelSeparator)
  {
    var m := ValidationMessage(labels);
    var j := Join(labels, LabelSeparator);
    assert m == MessagePrefix + j + MessageSuffix;
    assert m[|MessagePrefix|..|m| - |MessageSuffix|] == (MessagePrefix + j + MessageSuffix)[|MessagePrefix|..|MessagePrefix| + |j|];
  }

  /** `createToast(message, type = "info")` */
  function CreateToast(message: string, kind: ToastType := Info): (e: ToastEvent)
    ensures e.name == EventName && e.detail.message == message && e.detail.kind == kind
  {
    ToastEvent(EventName, ToastDetail(message, kind))
  }

  /** `createValidationToast(validationState)`: `None` for `null`. */
  function CreateValidationToast(state: ValidationState): (r: Option<ToastEvent>)
    ensures r.None? <==> forall i :: 0 <= i < |state| ==> state[i].1.isValid
    ensures r.Some? ==> r.value.name == EventName && r.value.detail.kind == Error
  {
    var labels := MissingLabels(Values(state));
    MissingLabelsMeaning(Values(state));
    if labels == [] then None
    else Some(CreateToast(ValidationMessage(labels), Error))
  }

  // ---------------------------------------------------------------------------
  // Properties

  /** The labels of a two-field state: the first field's, then the second's. */
  lemma TwoFieldLabels(a: string, x: ValidationField, b: string, y: ValidationField)
    ensures MissingLabels(Values([(a, x), (b, y)]))
            == (if x.isValid then [] else [x.labelText]) + (if y.isValid then [] else [y.labelText])
  {
    assert Values([(a, x), (b, y)]) == [x, y];
    MissingLabelsAppend([x], [y]);
    assert [x] + [y] == [x, y];
  }

  /** With exactly one invalid field of two, the toast names that field alone. */
  lemma OneInvalidNamed(a: string, x: ValidationField, b: string, y: ValidationField)
    requires x.isValid != y.isValid
    ensures var missing := if x.isValid then y else x;
            CreateValidationToast([(a, x), (b, y)])
            == Some(ToastEvent(EventName, ToastDetail(MessagePrefix + missing.labelText + MessageSuffix, Error)))
  {
    TwoFieldLabels(a, x, b, y);
  }

  /** Two invalid fields are named in the object's order, joined by " and ". */
  lemma BothInvalidNamed(a: string, phone: ValidationField, b: string, city: ValidationField)
    requires !phone.isValid && !city.isValid
    ensures CreateValidationToast([(a, phone), (b, city)])
            == Some(ToastEvent(EventName, ToastDetail(MessagePrefix + phone.labelText + LabelSeparator + city.labelText + MessageSuffix, Error)))
  {
    TwoFieldLabels(a, phone, b, city);
    var labels := [phone.labelText, city.labelText];
    assert MissingLabels(Values([(a, phone), (b, city)])) == labels;
    assert Join(labels, LabelSeparator) == phone.labelText + LabelSeparator + city.labelText by {
      assert labels[1..] == [city.labelText];
    }
    assert ValidationMessage(labels) == MessagePrefix + phone.labelText + LabelSeparator + city.labelText + MessageSuffix;
  }

  /** A toast, when there is one, is the error toast of the message naming exactly the
      invalid fields' labels, in value order. */
  lemma ValidationToastMeaning(state: ValidationState)
    requires CreateValidationToast(state).Some?
    ensures var e := CreateValidationToast(state).value;
            e == CreateToast(ValidationMessage(MissingLabels(Values(state))), Error)
            && e.detail.message[|MessagePrefix|..|e.detail.message| - |MessageSuffix|]
               == Join(MissingLabels(Values(state)), LabelSeparator)
  {
    ValidationMessageJoined(MissingLabels(Values(state)));
  }

  /** A generic toast is an "info" toast unless told otherwise. */
  lemma DefaultIsInfo(message: string)
    ensures CreateToast(message).detail == ToastDetail(message, Info)
  {
  }
}
