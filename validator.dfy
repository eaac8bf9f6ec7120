/**
 * The required-field check of the submit handler. A field is JavaScript-falsy when it
 * is missing or an empty string; the items list must also be non-empty. Nothing
 * else is checked: malformed dates, times and amounts reach the scoring step.
 */
module Validator {
  import opened Wrappers
  import opened Rules

  /** A submitted body: each field present (`Some`) or missing (`None`). */
  datatype Payload = Payload(
    retailer: Option<string>,
    purchaseDate: Option<string>,
    purchaseTime: Option<string>,
    items: Option<seq<Item>>,
    total: Option<string>)

  /** `!field` is false: the text field is present and not empty. */
  predicate Truthy(field: Option<string>) {
    field.Some? && field.value != ""
  }

  /** The receipt a client would send as the body of a submission. */
  function ToPayload(r: Receipt): Payload {
    Payload(Some(r.retailer), Some(r.purchaseDate), Some(r.purchaseTime), Some(r.items), Some(r.total))
  }

  /** A receipt none of whose required fields is empty. */
  predicate WellFormed(r: Receipt) {
    r.retailer != "" && r.purchaseDate != "" && r.purchaseTime != "" && r.total != "" && |r.items| > 0
  }

  /** The validation condition; `None` is the "Invalid receipt data." rejection. */
  function Validate(p: Payload): (r: Option<Receipt>)
    ensures r.Some? ==> ToPayload(r.value) == p && WellFormed(r.value)
  {
    if Truthy(p.retailer) && Truthy(p.purchaseDate) && Truthy(p.purchaseTime)
       && p.items.Some? && Truthy(p.total) && |p.items.value| != 0
    then Some(Receipt(p.retailer.value, p.purchaseDate.value, p.purchaseTime.value, p.items.value, p.total.value))
    else None
  }

  /** Validation accepts exactly the bodies of well-formed receipts and returns that receipt. */
  lemma ValidateAcceptsWellFormed(p: Payload, r: Receipt)
    ensures Validate(p) == Some(r) <==> p == ToPayload(r) && WellFormed(r)
  {
  }

  /** A body is rejected exactly when it is the body of no well-formed receipt. */
  lemma ValidateRejectsExactly(p: Payload)
    ensures Validate(p).None? <==> forall r :: p != ToPayload(r) || !WellFormed(r)
  {
    if Validate(p).Some? {
      var r := Validate(p).value;
      assert p == ToPayload(r) && WellFormed(r);
    } else {
      forall r | p == ToPayload(r)
        ensures !WellFormed(r)
      {
        ValidateAcceptsWellFormed(p, r);
      }
    }
  }
}
