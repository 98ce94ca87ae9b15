/** The admin bulk-upload route: the shape checks on the uploaded
    `questions` value before the batch is inserted. */
module AdminRoutes {
  import opened Common

  /** One element of the uploaded array: `null`, or an object whose four
      required fields are each a string or absent. */
  datatype RawItem =
    | NullItem
    | Record(subject: Option<string>, qtype: Option<string>, difficulty: Option<string>, prompt: Option<string>)

  /** The request body's `questions`: not an array, or an array. */
  datatype Payload = NotArray | Items(items: seq<RawItem>)

  datatype UploadOutcome =
    | BadRequest(message: string)                     // 400
    | Uploaded(insertedCount: nat, inserted: seq<RawItem>)
    | UploadFailed                                    // 500

  const NotArrayMessage := "Questions must be an array"
  const MissingFieldsMessage := "Each question must have subject, type, difficulty, and prompt"

  predicate HasRequiredFields(item: RawItem)
  {
    item.Record? && Truthy(item.subject) && Truthy(item.qtype) && Truthy(item.difficulty) && Truthy(item.prompt)
  }

  /** Where the validation loop stops. */
  datatype Check = AllPresent | Missing | Crash

  /** The `for…of` loop: the first element without all four fields ends
      it, with a 400 for an object and a thrown error for `null`, whose
      fields cannot be read. */
  function Validate(items: seq<RawItem>): Check
  {
    if items == [] then AllPresent
    else if items[0].NullItem? then Crash
    else if !HasRequiredFields(items[0]) then Missing
    else Validate(items[1..])
  }

  /** The first element that fails the check, if any. */
  predicate FirstFailureAt(items: seq<RawItem>, k: nat)
  {
    k < |items| && !HasRequiredFields(items[k]) && forall j :: 0 <= j < k ==> HasRequiredFields(items[j])
  }

  /** The loop passes exactly when every element has the four fields;
      otherwise the first failing element decides: `null` throws, an
      object is a 400. */
  lemma {:induction false} ValidateSpec(items: seq<RawItem>)
    ensures Validate(items) == AllPresent <==> forall i :: 0 <= i < |items| ==> HasRequiredFields(items[i])
    ensures forall k: nat :: FirstFailureAt(items, k) ==>
              Validate(items) == (if items[k].NullItem? then Crash else Missing)
  {
    if items != [] {
      ValidateSpec(items[1..]);
      assert forall i :: 1 <= i < |items| ==> items[i] == items[1..][i - 1];
      forall k: nat | FirstFailureAt(items, k) && k > 0
        ensures FirstFailureAt(items[1..], k - 1)
      {
        assert forall j :: 0 <= j < k - 1 ==> items[1..][j] == items[j + 1];
      }
    }
  }

  /** `POST /questions/bulk-upload`. `accepted` stands for the database
      accepting the whole batch in `insertMany`. */
  function BulkUpload(payload: Payload, accepted: bool): (r: UploadOutcome)
    ensures payload.NotArray? ==> r == BadRequest(NotArrayMessage)
    ensures r.Uploaded? ==> r.insertedCount == |r.inserted| && r.inserted == payload.items
  {
    match payload
    case NotArray => BadRequest(NotArrayMessage)
    case Items(items) =>
      match Validate(items)
      case Crash => UploadFailed
      case Missing => BadRequest(MissingFieldsMessage)
      case AllPresent => if accepted then Uploaded(|items|, items) else UploadFailed
  }

  /** The batch is inserted, whole and counted, exactly when it is an
      array whose every element has the four fields and the database
      accepts it; an element missing a field rejects the whole batch
      before anything is inserted. */
  lemma BulkUploadSpec(payload: Payload, accepted: bool)
    ensures var r := BulkUpload(payload, accepted);
            && (r.Uploaded? <==>
                  payload.Items? && accepted && forall i :: 0 <= i < |payload.items| ==> HasRequiredFields(payload.items[i]))
            && (r.Uploaded? ==> r.insertedCount == |payload.items|)
            && (payload.Items? && (exists k: nat :: FirstFailureAt(payload.items, k) && payload.items[k].Record?) ==>
                  r == BadRequest(MissingFieldsMessage))
  {
    if payload.Items? {
      ValidateSpec(payload.items);
    }
  }
}
