/** `setupFormValidation` in its two versions:
    frontend/src/components/utils/formValidationUtils.ts keeps two closure flags that the
    validation-change listeners reassign and that decide the submit button's hover class;
    src/components/utils/formValidationUtils.ts only forwards each event's `isValid` to the
    outside setters. Both build the same validation status and raise the same highlight
    events, under different event names. The page (its events and its submit button) is a
    class; the outside setters are recorded as the values they were handed. */
module FormValidation {

  import opened Wrappers
  import opened Toast

  /** The event names of one version of the form. */
  datatype Names = Names(phoneChange: string, cityChange: string, phoneError: string, cityError: string)

  const FrontendNames: Names :=
    Names("phone_validation_change", "city_validation_change", "highlight_phone_error", "highlight_city_error")

  const SrcNames: Names :=
    Names("phone-validation-change", "city-validation-change", "highlight-phone-error", "highlight-city-error")

  const PhoneLabel: string := "valid phone number"
  const CityLabel: string := "city"

  // ---------------------------------------------------------------------------
  // The pure helpers

  /** `isFormValid` */
  function IsFormValid(isPhoneValid: bool, isCityValid: bool): (r: bool)
    ensures r <==> isPhoneValid && isCityValid
  {
    isPhoneValid && isCityValid
  }

  datatype ValidationStatus = ValidationStatus(isValid: bool, phone: ValidationField, city: ValidationField)

  /** `getValidationStatus`: the overall flag and each field with its fixed label. */
  function GetValidationStatus(isPhoneValid: bool, isCityValid: bool): (s: ValidationStatus)
    ensures s.isValid == IsFormValid(isPhoneValid, isCityValid)
    ensures s.phone == ValidationField(isPhoneValid, PhoneLabel) && s.city == ValidationField(isCityValid, CityLabel)
  {
    ValidationStatus(isPhoneValid && isCityValid, ValidationField(isPhoneValid, PhoneLabel), ValidationField(isCityValid, CityLabel))
  }

  /** The `validationState` object: `phone` first, then `city`. */
  function StateObject(s: ValidationStatus): ValidationState {
    [("phone", s.phone), ("city", s.city)]
  }

  /** The events `highlightInvalidFields` dispatches, in order. */
  function Highlights(names: Names, isPhoneValid: bool, isCityValid: bool): (events: seq<string>)
    ensures |events| == (if isPhoneValid then 0 else 1) + (if isCityValid then 0 else 1)
    ensures !isPhoneValid ==> events[0] == names.phoneError
    ensures !isCityValid ==> events[|events| - 1] == names.cityError
  {
    (if isPhoneValid then [] else [names.phoneError]) + (if isCityValid then [] else [names.cityError])
  }

  /** Under either version's names, a field's highlight event is raised exactly when that
      field is invalid, and none is raised for a valid form. */
  lemma HighlightsExactlyInvalid(names: Names, isPhoneValid: bool, isCityValid: bool)
    requires names == FrontendNames || names == SrcNames
    ensures var events := Highlights(names, isPhoneValid, isCityValid);
            (names.phoneError in events <==> !isPhoneValid)
            && (names.cityError in events <==> !isCityValid)
            && (events == [] <==> IsFormValid(isPhoneValid, isCityValid))
  {
    var events := Highlights(names, isPhoneValid, isCityValid);
    assert names.phoneError != names.cityError;
    if !isPhoneValid && !isCityValid {
      assert events == [names.phoneError, names.cityError];
    }
  }

  /** The status, shown as a validation toast, names exactly the invalid fields: no toast
      when the form is valid, else the fixed sentence for each combination. */
  lemma StatusToast(isPhoneValid: bool, isCityValid: bool)
    ensures var t := CreateValidationToast(StateObject(GetValidationStatus(isPhoneValid, isCityValid)));
            (t.None? <==> IsFormValid(isPhoneValid, isCityValid))
            && (!isPhoneValid && !isCityValid ==>
                  t.value.detail.message == MessagePrefix + PhoneLabel + LabelSeparator + CityLabel + MessageSuffix)
            && (!isPhoneValid && isCityValid ==>
                  t.value.detail.message == MessagePrefix + PhoneLabel + MessageSuffix)
            && (isPhoneValid && !isCityValid ==>
                  t.value.detail.message == MessagePrefix + CityLabel + MessageSuffix)
  {
    var s := GetValidationStatus(isPhoneValid, isCityValid);
    if !isPhoneValid && !isCityValid {
      BothInvalidNamed("phone", s.phone, "city", s.city);
    } else if isPhoneValid != isCityValid {
      OneInvalidNamed("phone", s.phone, "city", s.city);
    }
  }

  // ---------------------------------------------------------------------------
  // Event history

  /** A validation-change event as a listener receives it. */
  datatype ValidationEvent = ValidationEvent(name: string, isValid: bool)

  /** The values events of one name carried, in order: what its setter was handed. */
  function ValuesOf(events: seq<ValidationEvent>, name: string): (vs: seq<bool>)
    ensures |vs| <= |events|
  {
    if events == [] then []
    else ValuesOf(events[..|events| - 1], name)
         + (if events[|events| - 1].name == name then [events[|events| - 1].isValid] else [])
  }

  /** The value the latest event of a name carried; `false` before any. */
  function LastValue(events: seq<ValidationEvent>, name: string): bool {
    if events == [] then false
    else if events[|events| - 1].name == name then events[|events| - 1].isValid
    else LastValue(events[..|events| - 1], name)
  }

  lemma ValuesOfSnoc(events: seq<ValidationEvent>, e: ValidationEvent, name: string)
    ensures ValuesOf(events + [e], name) == ValuesOf(events, name) + (if e.name == name then [e.isValid] else [])
  {
    assert (events + [e])[..|events|] == events;
  }

  lemma LastValueSnoc(events: seq<ValidationEvent>, e: ValidationEvent, name: string)
    ensures LastValue(events + [e], name) == if e.name == name then e.isValid else LastValue(events, name)
  {
    assert (events + [e])[..|events|] == events;
  }

  /** The flag a listener keeps is the last value its setter was handed, `false` before
      the first. */
  lemma {:induction false} LastValueIsLastHanded(events: seq<ValidationEvent>, name: string)
    ensures var vs := ValuesOf(events, name);
            LastValue(events, name) == (vs != [] && vs[|vs| - 1])
  {
    if events != [] {
      LastValueIsLastHanded(events[..|events| - 1], name);
    }
  }

  /** Events of other names leave a flag alone. */
  lemma {:induction false} OtherEventsIgnored(events: seq<ValidationEvent>, more: seq<ValidationEvent>, name: string)
    requires forall i :: 0 <= i < |more| ==> more[i].name != name
    ensures LastValue(events + more, name) == LastValue(events, name)
    ensures ValuesOf(events + more, name) == ValuesOf(events, name)
  {
    if more == [] {
      assert events + more == events;
    } else {
      var init := more[..|more| - 1];
      assert forall i :: 0 <= i < |init| ==> init[i] == more[i];
      OtherEventsIgnored(events, init, name);
      assert events + more == (events + init) + [more[|more| - 1]];
      LastValueSnoc(events + init, more[|more| - 1], name);
      ValuesOfSnoc(events + init, more[|more| - 1], name);
    }
  }

  // ---------------------------------------------------------------------------
  // The page

  /** The document: the events dispatched on it, and the submit button (when the page has
      one) with whether its class list holds `hover:bg-blue-700`. */
  class Page {
    const hasButton: bool
    var hover: bool
    var dispatched: seq<string>

    constructor (hasButton: bool, hover: bool)
      ensures this.hasButton == hasButton && this.hover == hover && dispatched == []
    {
      this.hasButton := hasButton;
      this.hover := hover;
      dispatched := [];
    }

    /** `classList.add` / `classList.remove` of the hover class. */
    method SetHover(on: bool)
      modifies this
      ensures hover == on && dispatched == old(dispatched)
    {
      hover := on;
    }

    /** `document.dispatchEvent` */
    method Dispatch(event: string)
      modifies this
      ensures dispatched == old(dispatched) + [event] && hover == old(hover)
    {
      dispatched := dispatched + [event];
    }
  }

  /** `highlightInvalidFields` of either version. */
  method HighlightInvalidFields(page: Page, names: Names, isPhoneValid: bool, isCityValid: bool)
    modifies page
    ensures page.dispatched == old(page.dispatched) + Highlights(names, isPhoneValid, isCityValid)
    ensures page.hover == old(page.hover)
  {
    if !isPhoneValid {
      page.Dispatch(names.phoneError);
    }
    if !isCityValid {
      page.Dispatch(names.cityError);
    }
  }

  // ---------------------------------------------------------------------------
  // frontend/src/components/utils/formValidationUtils.ts

  /** The closure of the frontend version: its two flags, the values handed to the outside
      setters, and the events its listeners handled. */
  class FormValidation {
    var phoneValid: bool
    var cityValid: bool
    var phoneHanded: seq<bool>
    var cityHanded: seq<bool>
    ghost var handled: seq<ValidationEvent>
    const page: Page

    /** The flags and the setters' values follow the handled events. */
    ghost predicate Valid()
      reads this
    {
      phoneValid == LastValue(handled, FrontendNames.phoneChange)
      && cityValid == LastValue(handled, FrontendNames.cityChange)
      && phoneHanded == ValuesOf(handled, FrontendNames.phoneChange)
      && cityHanded == ValuesOf(handled, FrontendNames.cityChange)
    }

    /** `setupFormValidation`: both flags start false. */
    constructor (page: Page)
      ensures Valid() && this.page == page && handled == []
      ensures !phoneValid && !cityValid && phoneHanded == [] && cityHanded == []
    {
      phoneValid := false;
      cityValid := false;
      phoneHanded := [];
      cityHanded := [];
      handled := [];
      this.page := page;
    }

    /** `updateSubmitButton`: the hover class is there iff both flags are true. */
    method UpdateSubmitButton()
      modifies page
      ensures page.hasButton ==> page.hover == IsFormValid(phoneValid, cityValid)
      ensures !page.hasButton ==> page.hover == old(page.hover)
      ensures page.dispatched == old(page.dispatched)
    {
      if page.hasButton {
        page.SetHover(IsFormValid(phoneValid, cityValid));
      }
    }

    /** A validation-change event reaching the document: only the two registered names have
        a listener; each updates its own flag, hands the value to its setter and refreshes
        the button. */
    method OnEvent(e: ValidationEvent)
      requires Valid() && this != page as object
      modifies this, page
      ensures Valid()
      ensures handled == if e.name in {FrontendNames.phoneChange, FrontendNames.cityChange}
                         then old(handled) + [e] else old(handled)
      ensures e.name == FrontendNames.phoneChange ==> phoneValid == e.isValid && cityValid == old(cityValid)
      ensures e.name == FrontendNames.cityChange ==> cityValid == e.isValid && phoneValid == old(phoneValid)
      ensures e.name in {FrontendNames.phoneChange, FrontendNames.cityChange} && page.hasButton
              ==> page.hover == (phoneValid && cityValid)
      ensures e.name !in {FrontendNames.phoneChange, FrontendNames.cityChange} || !page.hasButton
              ==> page.hover == old(page.hover)
      ensures page.dispatched == old(page.dispatched)
    {
      if e.name == FrontendNames.phoneChange {
        LastValueSnoc(handled, e, FrontendNames.phoneChange);
        LastValueSnoc(handled, e, FrontendNames.cityChange);
        ValuesOfSnoc(handled, e, FrontendNames.phoneChange);
        ValuesOfSnoc(handled, e, FrontendNames.cityChange);
        phoneValid := e.isValid;
        phoneHanded := phoneHanded + [e.isValid];
        handled := handled + [e];
        UpdateSubmitButton();
      } else if e.name == FrontendNames.cityChange {
        LastValueSnoc(handled, e, FrontendNames.phoneChange);
        LastValueSnoc(handled, e, FrontendNames.cityChange);
        ValuesOfSnoc(handled, e, FrontendNames.phoneChange);
        ValuesOfSnoc(handled, e, FrontendNames.cityChange);
        cityValid := e.isValid;
        cityHanded := cityHanded + [e.isValid];
        handled := handled + [e];
        UpdateSubmitButton();
      }
    }
  }

  /** After any handled events, the frontend button shows the hover class exactly when the
      last value handed to each setter was `true`. */
  lemma HoverFollowsSetters(handled: seq<ValidationEvent>)
    ensures var p := ValuesOf(handled, FrontendNames.phoneChange);
            var c := ValuesOf(handled, FrontendNames.cityChange);
            IsFormValid(LastValue(handled, FrontendNames.phoneChange), LastValue(handled, FrontendNames.cityChange))
            <==> (p != [] && p[|p| - 1]) && (c != [] && c[|c| - 1])
  {
    LastValueIsLastHanded(handled, FrontendNames.phoneChange);
    LastValueIsLastHanded(handled, FrontendNames.cityChange);
  }

  // ---------------------------------------------------------------------------
  // src/components/utils/formValidationUtils.ts

  /** Whether `updateSubmitButton` of the src version shows the hover class: it asks
      `isFormValid(false, false)`, whatever the form holds. */
  function ButtonHoverAsWritten(isPhoneValid: bool, isCityValid: bool): (on: bool)
    ensures !on
  {
    IsFormValid(false, false)
  }

  /** The intended button: hover exactly when both fields are valid. */
  function ButtonHover(isPhoneValid: bool, isCityValid: bool): (on: bool)
    ensures on <==> isPhoneValid && isCityValid
  {
    IsFormValid(isPhoneValid, isCityValid)
  }

  /** A form whose fields are both valid still loses the hover class as written. */
  lemma ValidFormNotHighlighted()
    ensures IsFormValid(true, true) && !ButtonHoverAsWritten(true, true) && ButtonHover(true, true)
  {
  }

  /** The last value handed to a setter, `false` before any. */
  function LastHanded(vs: seq<bool>): bool {
    vs != [] && vs[|vs| - 1]
  }

  /** The src version: no flags of its own; the values handed to the outside setters. */
  class SignupValidation {
    var phoneHanded: seq<bool>
    var cityHanded: seq<bool>
    const page: Page

    constructor (page: Page)
      ensures this.page == page && phoneHanded == [] && cityHanded == []
    {
      phoneHanded := [];
      cityHanded := [];
      this.page := page;
    }

    /** `updateSubmitButton` as written: the hover class is always removed. */
    method UpdateSubmitButtonAsWritten()
      modifies page
      ensures page.hasButton ==> page.hover == ButtonHoverAsWritten(LastHanded(phoneHanded), LastHanded(cityHanded))
      ensures page.hasButton ==> !page.hover
      ensures !page.hasButton ==> page.hover == old(page.hover)
      ensures page.dispatched == old(page.dispatched)
    {
      if page.hasButton {
        page.SetHover(IsFormValid(false, false));
      }
    }

    /** `updateSubmitButton` corrected: the hover class follows the last values the setters
        were handed, as in the frontend version. */
    method UpdateSubmitButton()
      modifies page
      ensures page.hasButton ==> page.hover == ButtonHover(LastHanded(phoneHanded), LastHanded(cityHanded))
      ensures !page.hasButton ==> page.hover == old(page.hover)
      ensures page.dispatched == old(page.dispatched)
    {
      if page.hasButton {
        page.SetHover(IsFormValid(LastHanded(phoneHanded), LastHanded(cityHanded)));
      }
    }

    /** A validation-change event: its value is forwarded to the registered setter, then the
        button is refreshed by `updateSubmitButton` as written, so the hover class goes
        whatever the values handed. */
    method OnEvent(e: ValidationEvent)
      requires this != page as object
      modifies this, page
      ensures phoneHanded == old(phoneHanded) + (if e.name == SrcNames.phoneChange then [e.isValid] else [])
      ensures cityHanded == old(cityHanded) + (if e.name == SrcNames.cityChange then [e.isValid] else [])
      ensures e.name in {SrcNames.phoneChange, SrcNames.cityChange} && page.hasButton ==> !page.hover
      ensures e.name !in {SrcNames.phoneChange, SrcNames.cityChange} || !page.hasButton
              ==> page.hover == old(page.hover)
      ensures page.dispatched == old(page.dispatched)
    {
      if e.name == SrcNames.phoneChange {
        phoneHanded := phoneHanded + [e.isValid];
        UpdateSubmitButtonAsWritten();
      } else if e.name == SrcNames.cityChange {
        cityHanded := cityHanded + [e.isValid];
        UpdateSubmitButtonAsWritten();
      }
    }
  }
}
