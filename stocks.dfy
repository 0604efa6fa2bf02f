/** The required-fields check that `create_stock` runs on the raw JSON body
    before anything else. */
module StockCreation {
  import opened Common

  const REQUIRED_FIELDS: seq<string> := ["name", "symbol", "founded"]

  /** The required fields absent from the body, in the order they are
      listed. */
  function MissingFields(provided: set<string>): (r: seq<string>)
    ensures IsSubsequence(r, REQUIRED_FIELDS)
    ensures forall f :: f in r <==> f in REQUIRED_FIELDS && f !in provided
  {
    Filter(REQUIRED_FIELDS, f => f !in provided)
  }

  /** `sep.join(parts)`. */
  function Join(parts: seq<string>, sep: string): string {
    if parts == [] then ""
    else if |parts| == 1 then parts[0]
    else parts[0] + sep + Join(parts[1..], sep)
  }

  /** None when every required field is present; otherwise the 400 error
      naming the missing ones. */
  function CheckRequiredFields(provided: set<string>): (r: Option<Fault>)
    ensures r.None? <==> forall f :: f in REQUIRED_FIELDS ==> f in provided
    ensures r.Some? ==> r.value == InvalidInput("Missing required fields: " + Join(MissingFields(provided), ", "))
  {
    var missing := MissingFields(provided);
    if missing != [] then Some(InvalidInput("Missing required fields: " + Join(missing, ", "))) else None
  }
}
