/**
 * The checkout wizard of src/components/CheckoutModal.tsx: three steps
 * (details, pickup, payment) whose Continue button is gated by a validator
 * per step, the mobile field's input sanitiser, and the cup names the
 * submitted order carries.
 */
module Checkout {
  import opened Wrappers
  import opened Text
  import opened Cart
  import opened OrderCreation

  // ---------------------------------------------------------------------
  // the validators

  /** `validateStep1`: a name that is not blank and a mobile matching `^[6-9]\d{9}$`. */
  predicate Step1Valid(name: string, mobile: string) {
    Trim(name) != "" && MatchesMobilePattern(mobile)
  }

  /** `validateStep2`: a location and a time are both selected. */
  predicate Step2Valid(location: string, time: string) {
    location != "" && time != ""
  }

  /** Step 1 passes exactly when the name has a non-space character and the mobile is a valid Indian mobile. */
  lemma Step1ValidIff(name: string, mobile: string)
    ensures Step1Valid(name, mobile) <==> !AllSpace(name) && IsValidMobile(mobile)
  {
    TrimFacts(name);
    MobilePatternIff(mobile);
  }

  // ---------------------------------------------------------------------
  // the mobile field

  /** `replace(/\D/g, '')`: the ASCII digits of `raw`, in order. */
  function DigitsOf(raw: string): (r: string)
    ensures AllDigits(r) && |r| <= |raw|
    ensures AllDigits(raw) ==> r == raw
  {
    if raw == [] then []
    else (if IsDigit(raw[0]) then [raw[0]] else []) + DigitsOf(raw[1..])
  }

  /** The `onChange` of the mobile input: its digits, cut to ten. */
  function SanitizeMobile(raw: string): (r: string)
    ensures AllDigits(r) && |r| <= 10
    ensures AllDigits(raw) && |raw| <= 10 ==> r == raw
  {
    var digits := DigitsOf(raw);
    if |digits| <= 10 then digits else digits[..10]
  }

  /** Sanitising a sanitised value changes nothing. */
  lemma SanitizeIdempotent(raw: string)
    ensures SanitizeMobile(SanitizeMobile(raw)) == SanitizeMobile(raw)
  {
  }

  /** A valid mobile typed as it is passes through the sanitiser unchanged. */
  lemma SanitizeKeepsValidMobile(raw: string)
    requires IsValidMobile(raw)
    ensures SanitizeMobile(raw) == raw
  {
  }

  // ---------------------------------------------------------------------
  // the submitted order

  /** `n.trim() || name.trim()`. */
  function CupNameOrDefault(cupName: string, customerName: string): (r: string)
    ensures Trim(cupName) != "" ==> r == Trim(cupName)
    ensures Trim(cupName) == "" ==> r == Trim(customerName)
  {
    if Trim(cupName) != "" then Trim(cupName) else Trim(customerName)
  }

  /** `item.cupNames.map(...)`. */
  function SubmittedCupNames(cupNames: seq<string>, customerName: string): (r: seq<string>)
    ensures |r| == |cupNames|
    ensures forall i :: 0 <= i < |cupNames| ==> r[i] == CupNameOrDefault(cupNames[i], customerName)
  {
    seq(|cupNames|, i requires 0 <= i < |cupNames| => CupNameOrDefault(cupNames[i], customerName))
  }

  /**
   * With a name that passed step 1 every submitted cup name is filled in and
   * already trimmed; a blank cup is named after the customer.
   */
  lemma SubmittedNamesFilled(cupNames: seq<string>, customerName: string)
    requires Trim(customerName) != ""
    ensures forall i :: 0 <= i < |cupNames| ==>
      && SubmittedCupNames(cupNames, customerName)[i] != ""
      && Trim(SubmittedCupNames(cupNames, customerName)[i]) == SubmittedCupNames(cupNames, customerName)[i]
    ensures forall i :: 0 <= i < |cupNames| && AllSpace(cupNames[i]) ==>
      SubmittedCupNames(cupNames, customerName)[i] == Trim(customerName)
  {
    forall i | 0 <= i < |cupNames|
      ensures Trim(SubmittedCupNames(cupNames, customerName)[i]) == SubmittedCupNames(cupNames, customerName)[i]
    {
      TrimIdempotent(cupNames[i]);
      TrimIdempotent(customerName);
    }
  }

  /** The `items` of the request body. */
  function RequestLines(items: seq<CartItem>, customerName: string): (r: seq<RequestLine>)
    ensures |r| == |items|
    ensures forall i :: 0 <= i < |items| ==>
      && r[i].menuItemId == items[i].menuItemId && r[i].quantity == items[i].quantity
      && r[i].cupNames == Some(SubmittedCupNames(items[i].cupNames, customerName))
  {
    seq(|items|, i requires 0 <= i < |items| =>
      RequestLine(items[i].menuItemId, items[i].quantity, Some(SubmittedCupNames(items[i].cupNames, customerName))))
  }

  /** The body `handlePayment` posts to the order route. */
  function PaymentRequest(name: string, mobile: string, location: string, time: string, items: seq<CartItem>): OrderRequest {
    OrderRequest(Trim(name), mobile, location, time, RequestLines(items, name))
  }

  /**
   * A request posted after both steps passed, from a non-empty cart, clears
   * the route's required-field and mobile guards.
   */
  lemma PaymentRequestPassesFieldChecks(name: string, mobile: string, location: string, time: string, items: seq<CartItem>)
    requires Step1Valid(name, mobile) && Step2Valid(location, time) && |items| > 0
    ensures !MissingFields(PaymentRequest(name, mobile, location, time, items))
    ensures MatchesMobilePattern(PaymentRequest(name, mobile, location, time, items).customerMobile)
  {
  }

  // ---------------------------------------------------------------------
  // the wizard

  /** One entry of the slot grid. */
  datatype SlotChoice = SlotChoice(time: string, available: bool)

  class CheckoutWizard {
    /** The cart store the wizard writes the customer and pickup details into. */
    const store: CartStore
    var step: int
    var name: string
    var mobile: string
    var selectedLocation: string
    var selectedTime: string

    /**
     * The step stays in 1..3, and every step past one has written into the
     * store the details the earlier steps validated.
     */
    predicate Valid()
      reads this, store
    {
      && 1 <= step <= 3
      && (step >= 2 ==> Step1Valid(name, mobile) && store.customerName == Trim(name) && store.customerMobile == mobile)
      && (step == 3 ==> Step2Valid(selectedLocation, selectedTime)
                        && store.pickupLocationId == selectedLocation && store.pickupTime == selectedTime)
    }

    /** On mount the modal starts on step 1 with its fields taken from the store; closing it does not remount it. */
    constructor(store: CartStore)
      ensures this.store == store && Valid()
      ensures step == 1
      ensures name == store.customerName && mobile == store.customerMobile
      ensures selectedLocation == store.pickupLocationId && selectedTime == store.pickupTime
    {
      this.store := store;
      step := 1;
      name := store.customerName;
      mobile := store.customerMobile;
      selectedLocation := store.pickupLocationId;
      selectedTime := store.pickupTime;
    }

    /** The name input, shown on step 1. */
    method SetName(value: string)
      requires Valid() && step == 1
      modifies this
      ensures Valid() && name == value
      ensures step == old(step) && mobile == old(mobile)
      ensures selectedLocation == old(selectedLocation) && selectedTime == old(selectedTime)
    {
      name := value;
    }

    /** The mobile input, shown on step 1: what is kept is the sanitised text. */
    method TypeMobile(raw: string)
      requires Valid() && step == 1
      modifies this
      ensures Valid() && mobile == SanitizeMobile(raw)
      ensures step == old(step) && name == old(name)
      ensures selectedLocation == old(selectedLocation) && selectedTime == old(selectedTime)
    {
      mobile := SanitizeMobile(raw);
    }

    /** A location card, shown on step 2. */
    method SelectLocation(id: string)
      requires Valid() && step == 2
      modifies this
      ensures Valid() && selectedLocation == id
      ensures step == old(step) && name == old(name) && mobile == old(mobile) && selectedTime == old(selectedTime)
    {
      selectedLocation := id;
    }

    /** A slot button, shown on step 2: `slot.available && setSelectedTime(slot.time)`. */
    method ClickSlot(slot: SlotChoice)
      requires Valid() && step == 2
      modifies this
      ensures Valid()
      ensures selectedTime == if slot.available then slot.time else old(selectedTime)
      ensures step == old(step) && name == old(name) && mobile == old(mobile) && selectedLocation == old(selectedLocation)
    {
      if slot.available {
        selectedTime := slot.time;
      }
    }

    /** Whether the footer offers Continue rather than Pay. */
    predicate ContinueOffered()
      reads this
    {
      step < 3
    }

    /** `handleNext`: advance one step when the current step validates, writing its details into the store. */
    method HandleNext()
      requires Valid()
      modifies this, store
      ensures Valid()
      ensures old(step) == 1 && Step1Valid(name, mobile) ==>
        step == 2 && store.customerName == Trim(name) && store.customerMobile == mobile
      ensures old(step) == 2 && Step2Valid(selectedLocation, selectedTime) ==>
        step == 3 && store.pickupLocationId == selectedLocation && store.pickupTime == selectedTime
      ensures old(step) == 1 && !Step1Valid(name, mobile) ==> step == 1
      ensures old(step) == 2 && !Step2Valid(selectedLocation, selectedTime) ==> step == 2
      ensures old(step) == 3 ==> step == 3
      ensures name == old(name) && mobile == old(mobile)
      ensures selectedLocation == old(selectedLocation) && selectedTime == old(selectedTime)
      ensures store.items == old(store.items)
      ensures step == old(step) ==>
        && store.customerName == old(store.customerName) && store.customerMobile == old(store.customerMobile)
        && store.pickupLocationId == old(store.pickupLocationId) && store.pickupTime == old(store.pickupTime)
      ensures old(step) == 1 ==>
        store.pickupLocationId == old(store.pickupLocationId) && store.pickupTime == old(store.pickupTime)
      ensures old(step) == 2 ==>
        store.customerName == old(store.customerName) && store.customerMobile == old(store.customerMobile)
    {
      if step == 1 && Step1Valid(name, mobile) {
        store.SetCustomerInfo(Trim(name), mobile);
        step := 2;
      } else if step == 2 && Step2Valid(selectedLocation, selectedTime) {
        store.SetPickupLocation(selectedLocation);
        store.SetPickupTime(selectedTime);
        step := 3;
      }
    }

    /** The Back button, rendered only when `step > 1`. */
    method Back()
      requires Valid()
      modifies this
      ensures Valid()
      ensures step == if old(step) > 1 then old(step) - 1 else old(step)
      ensures name == old(name) && mobile == old(mobile)
      ensures selectedLocation == old(selectedLocation) && selectedTime == old(selectedTime)
    {
      if step > 1 {
        step := step - 1;
      }
    }

    /** On the payment step the body about to be posted passes the route's field and mobile checks. */
    method PaymentBody() returns (req: OrderRequest)
      requires Valid() && step == 3 && |store.items| > 0
      ensures req == PaymentRequest(name, mobile, selectedLocation, selectedTime, store.items)
      ensures !MissingFields(req) && MatchesMobilePattern(req.customerMobile)
      ensures req.customerName == store.customerName && req.customerMobile == store.customerMobile
      ensures req.pickupLocationId == store.pickupLocationId && req.pickupTime == store.pickupTime
    {
      req := PaymentRequest(name, mobile, selectedLocation, selectedTime, store.items);
      PaymentRequestPassesFieldChecks(name, mobile, selectedLocation, selectedTime, store.items);
    }
  }
}
