/**
 * Customer sign-in by one-time code: src/app/api/auth/customer/send-otp/route.ts
 * issues a code with a ten-minute expiry to a mobile, creating the customer
 * if needed, and src/app/api/auth/customer/verify-otp/route.ts checks a code
 * and clears it.
 *
 * The customer table is a map keyed by mobile (the column is unique). The
 * code, the clock and the id the database assigns to a new row are inputs.
 * Times are milliseconds.
 */
module Otp {
  import opened Wrappers
  import opened Text

  datatype Customer = Customer(id: string, name: string, mobile: string, otpCode: Option<string>, otpExpiry: Option<int>)

  datatype Failure = Failure(status: int, error: string)

  /** How long an issued code stays valid: ten minutes. */
  const OtpLifetimeMs: int := 600000

  /** Every record is filed under its own mobile. */
  predicate TableOk(customers: map<string, Customer>) {
    forall m :: m in customers ==> customers[m].mobile == m
  }

  // ---------------------------------------------------------------------
  // send

  /** The table after a code has been issued to a valid mobile. */
  function Issued(customers: map<string, Customer>, mobile: string, otp: string, nowMs: int, newId: string): map<string, Customer> {
    var expiry := nowMs + OtpLifetimeMs;
    if mobile in customers then
      customers[mobile := customers[mobile].(otpCode := Some(otp), otpExpiry := Some(expiry))]
    else
      customers[mobile := Customer(newId, "", mobile, Some(otp), Some(expiry))]
  }

  /** For a known mobile only the code and the expiry change, to the new code and now plus ten minutes. */
  lemma IssueToExisting(customers: map<string, Customer>, mobile: string, otp: string, nowMs: int, newId: string)
    requires mobile in customers
    ensures Issued(customers, mobile, otp, nowMs, newId).Keys == customers.Keys
    ensures Issued(customers, mobile, otp, nowMs, newId)[mobile] ==
      Customer(customers[mobile].id, customers[mobile].name, customers[mobile].mobile, Some(otp), Some(nowMs + 600000))
    ensures forall m :: m in customers && m != mobile ==> Issued(customers, mobile, otp, nowMs, newId)[m] == customers[m]
  {
  }

  /** For a new mobile one record is added, with an empty name, the code and its expiry. */
  lemma IssueToNew(customers: map<string, Customer>, mobile: string, otp: string, nowMs: int, newId: string)
    requires mobile !in customers
    ensures Issued(customers, mobile, otp, nowMs, newId).Keys == customers.Keys + {mobile}
    ensures |Issued(customers, mobile, otp, nowMs, newId)| == |customers| + 1
    ensures Issued(customers, mobile, otp, nowMs, newId)[mobile] == Customer(newId, "", mobile, Some(otp), Some(nowMs + 600000))
    ensures forall m :: m in customers ==> Issued(customers, mobile, otp, nowMs, newId)[m] == customers[m]
  {
  }

  lemma IssueKeepsTable(customers: map<string, Customer>, mobile: string, otp: string, nowMs: int, newId: string)
    requires TableOk(customers)
    ensures TableOk(Issued(customers, mobile, otp, nowMs, newId))
    ensures mobile in Issued(customers, mobile, otp, nowMs, newId)
  {
  }

  // ---------------------------------------------------------------------
  // verify

  /** The checks of verify-otp, in order: the first that fails, or `None`. */
  function VerifyCheck(customers: map<string, Customer>, mobile: string, otp: string, nowMs: int): Option<Failure> {
    if mobile == "" || otp == "" then Some(Failure(400, "Mobile and OTP required"))
    else if mobile !in customers then Some(Failure(404, "Customer not found"))
    else if customers[mobile].otpCode != Some(otp) then Some(Failure(400, "Invalid OTP"))
    else if customers[mobile].otpExpiry.Some? && customers[mobile].otpExpiry.value < nowMs then Some(Failure(400, "OTP expired"))
    else None
  }

  /** The record after a successful check: code and expiry cleared, the name replaced when one is given. */
  function Verified(c: Customer, name: string): Customer {
    c.(otpCode := None, otpExpiry := None, name := if name != "" then name else c.name)
  }

  /**
   * Each outcome of the checks, and the conditions under which it is the
   * answer: a later check only speaks when every earlier one passed.
   */
  lemma VerifyCheckOrder(customers: map<string, Customer>, mobile: string, otp: string, nowMs: int)
    ensures VerifyCheck(customers, mobile, otp, nowMs) == Some(Failure(400, "Mobile and OTP required")) <==> mobile == "" || otp == ""
    ensures VerifyCheck(customers, mobile, otp, nowMs) == Some(Failure(404, "Customer not found")) <==>
      mobile != "" && otp != "" && mobile !in customers
    ensures VerifyCheck(customers, mobile, otp, nowMs) == Some(Failure(400, "Invalid OTP")) <==>
      mobile != "" && otp != "" && mobile in customers && customers[mobile].otpCode != Some(otp)
    ensures VerifyCheck(customers, mobile, otp, nowMs) == Some(Failure(400, "OTP expired")) <==>
      && mobile != "" && otp != "" && mobile in customers && customers[mobile].otpCode == Some(otp)
      && customers[mobile].otpExpiry.Some? && customers[mobile].otpExpiry.value < nowMs
  {
    assert "Mobile and OTP required" != "Invalid OTP" && "Mobile and OTP required" != "OTP expired";
    assert "Invalid OTP" != "OTP expired";
  }

  /** A record without an expiry never expires, and one with an expiry is still good at that very instant. */
  lemma ExpiryOnlyWhenPast(c: Customer, otp: string, nowMs: int)
    requires c.otpCode == Some(otp) && otp != "" && c.mobile != ""
    requires c.otpExpiry.None? || nowMs <= c.otpExpiry.value
    ensures VerifyCheck(map[c.mobile := c], c.mobile, otp, nowMs) == None
  {
  }

  /** A code just issued to a valid mobile verifies at any time up to its expiry. */
  lemma SendThenVerify(customers: map<string, Customer>, mobile: string, otp: string, sentMs: int, newId: string, nowMs: int)
    requires MatchesMobilePattern(mobile) && otp != ""
    requires nowMs <= sentMs + 600000
    ensures VerifyCheck(Issued(customers, mobile, otp, sentMs, newId), mobile, otp, nowMs) == None
  {
  }

  /** After a success the code is gone, so presenting the same code again is refused. */
  lemma ReplayFails(customers: map<string, Customer>, mobile: string, otp: string, name: string, nowMs: int, laterMs: int)
    requires VerifyCheck(customers, mobile, otp, nowMs) == None
    ensures VerifyCheck(customers[mobile := Verified(customers[mobile], name)], mobile, otp, laterMs) == Some(Failure(400, "Invalid OTP"))
  {
  }

  /** A success keeps the record's id and mobile and applies the name rule. */
  lemma VerifiedRecord(c: Customer, name: string)
    ensures Verified(c, name).id == c.id && Verified(c, name).mobile == c.mobile
    ensures Verified(c, name).otpCode.None? && Verified(c, name).otpExpiry.None?
    ensures name != "" ==> Verified(c, name).name == name
    ensures name == "" ==> Verified(c, name).name == c.name
  {
  }

  // ---------------------------------------------------------------------
  // the table

  datatype SendResult = OtpSent | SendRefused(failure: Failure)

  datatype VerifyResult = SignedIn(customer: Customer) | VerifyRefused(failure: Failure)

  class CustomerTable {
    var customers: map<string, Customer>

    predicate Valid()
      reads this
    {
      TableOk(customers)
    }

    constructor(customers: map<string, Customer>)
      requires TableOk(customers)
      ensures Valid() && this.customers == customers
    {
      this.customers := customers;
    }

    /** send-otp: refuse a mobile that is not `^[6-9]\d{9}$`, else update or create its record. */
    method SendOtp(mobile: string, otp: string, nowMs: int, newId: string) returns (r: SendResult)
      requires Valid()
      modifies this
      ensures Valid()
      ensures !MatchesMobilePattern(mobile) ==> r == SendRefused(Failure(400, "Invalid mobile number")) && customers == old(customers)
      ensures MatchesMobilePattern(mobile) ==> r == OtpSent && customers == Issued(old(customers), mobile, otp, nowMs, newId)
    {
      if !MatchesMobilePattern(mobile) {
        return SendRefused(Failure(400, "Invalid mobile number"));
      }
      var otpExpiry := nowMs + 10 * 60 * 1000;
      if mobile in customers {
        var customer := customers[mobile];
        customers := customers[mobile := customer.(otpCode := Some(otp), otpExpiry := Some(otpExpiry))];
      } else {
        customers := customers[mobile := Customer(newId, "", mobile, Some(otp), Some(otpExpiry))];
      }
      IssueKeepsTable(old(customers), mobile, otp, nowMs, newId);
      r := OtpSent;
    }

    /** verify-otp: run the checks; on success clear the code and return the updated record. */
    method VerifyOtp(mobile: string, otp: string, name: string, nowMs: int) returns (r: VerifyResult)
      requires Valid()
      modifies this
      ensures Valid()
      ensures VerifyCheck(old(customers), mobile, otp, nowMs).Some? ==>
        r == VerifyRefused(VerifyCheck(old(customers), mobile, otp, nowMs).value) && customers == old(customers)
      ensures VerifyCheck(old(customers), mobile, otp, nowMs).None? ==>
        && mobile in old(customers)
        && r == SignedIn(Verified(old(customers)[mobile], name))
        && customers == old(customers)[mobile := Verified(old(customers)[mobile], name)]
    {
      var failure := VerifyCheck(customers, mobile, otp, nowMs);
      if failure.Some? {
        return VerifyRefused(failure.value);
      }
      var updated := Verified(customers[mobile], name);
      customers := customers[mobile := updated];
      r := SignedIn(updated);
    }
  }
}
