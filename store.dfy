/**
 * The in-memory `receipts` table of the server: submit validates, scores and stores
 * a receipt under a fresh identifier; lookup returns the stored points.
 */
module Store {
  import opened Wrappers
  import opened Rules
  import opened Validator
  import opened Engine

  /** A stored receipt with the points computed when it was submitted. */
  datatype ScoredReceipt = ScoredReceipt(receipt: Receipt, points: nat)

  /** Why a submission was refused. */
  datatype SubmitError =
    | InvalidReceipt  // a required field is missing or empty
    | ScoringFailure  // a date, time or amount does not parse

  /** The answer to a points lookup. */
  datatype Lookup = Points(points: nat) | NotFound

  class ReceiptTable {
    /** Identifier to scored receipt. */
    var receipts: map<string, ScoredReceipt>

    /** Every stored score is the score of the stored receipt. */
    ghost predicate Valid()
      reads this
    {
      forall id :: id in receipts ==> Score(receipts[id].receipt) == Some(receipts[id].points)
    }

    /** The empty table the server starts with. */
    constructor ()
      ensures Valid() && receipts == map[]
    {
      receipts := map[];
    }

    /**
     * Submits a receipt body under the caller-chosen identifier `id` (standing in
     * for `crypto.randomUUID()`). A refused submission leaves the table unchanged;
     * an accepted one adds exactly one entry.
     */
    method Submit(payload: Payload, id: string) returns (result: Result<string, SubmitError>)
      requires Valid()
      requires id !in receipts
      modifies this
      ensures Valid()
      ensures Validate(payload).None? ==>
        result == Err(InvalidReceipt) && receipts == old(receipts)
      ensures Validate(payload).Some? && Score(Validate(payload).value).None? ==>
        result == Err(ScoringFailure) && receipts == old(receipts)
      ensures Validate(payload).Some? && Score(Validate(payload).value).Some? ==>
        && result == Ok(id)
        && receipts == old(receipts)[id := ScoredReceipt(Validate(payload).value, Score(Validate(payload).value).value)]
    {
      var receipt := Validate(payload);
      if receipt.None? {
        return Err(InvalidReceipt);
      }
      var points := CalculatePoints(receipt.value);
      if points.None? {
        return Err(ScoringFailure);
      }
      receipts := receipts[id := ScoredReceipt(receipt.value, points.value)];
      return Ok(id);
    }

    /** Looks up the points stored under `id`. */
    method Query(id: string) returns (result: Lookup)
      requires Valid()
      ensures id !in receipts ==> result == NotFound
      ensures id in receipts ==> result == Points(receipts[id].points)
      ensures result.Points? ==> Score(receipts[id].receipt) == Some(result.points)
    {
      if id !in receipts {
        return NotFound;
      }
      return Points(receipts[id].points);
    }
  }
}
