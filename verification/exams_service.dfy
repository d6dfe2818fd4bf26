/**
 * Normalising list replies of the exam endpoints (services/exams.ts).
 */
module ExamsService {
  import opened Json

  /** A normalised list, or the `TypeError` that `'data' in payload` raises on a non-object. */
  datatype ListOutcome = List(items: seq<Json>) | TypeError

  /** `unwrapPaginated` */
  function UnwrapPaginated(payload: Json): (r: ListOutcome)
    ensures payload.JArr? ==> r == List(payload.items)
    ensures HasKey(payload, "data") && payload.fields["data"].JArr? ==> r == List(payload.fields["data"].items)
    ensures payload.JObj? && !(HasKey(payload, "data") && payload.fields["data"].JArr?) ==> r == List([])
    ensures r.TypeError? <==> !payload.JArr? && !payload.JObj?
  {
    match payload
    case JArr(items) => List(items)
    case JObj(fields) => if "data" in fields && fields["data"].JArr? then List(fields["data"].items) else List([])
    case _ => TypeError
  }

  /**
   * The list endpoints may answer with a bare list or with a paginated object:
   * a page whose `data` is a list gives the same items as that list sent bare,
   * whatever else the page carries, and a normalised list normalises to itself.
   */
  lemma ReplyShapesAgree(fields: map<string, Json>, items: seq<Json>)
    requires "data" in fields && fields["data"] == JArr(items)
    ensures UnwrapPaginated(JObj(fields)) == UnwrapPaginated(JArr(items)) == List(items)
    ensures UnwrapPaginated(JArr(UnwrapPaginated(JObj(fields)).items)) == UnwrapPaginated(JObj(fields))
  {
  }
}
