/**
 * The URL validity check of the message handler.
 *
 * The URL parser itself is not modelled: its result is given as a
 * `ParseOutcome`, which is either the two components the check reads
 * (the scheme and the network location, i.e. the authority of section 3.2
 * of RFC 3986) or the `ValueError` the parser may raise.
 */
module Url {

  /** The components of a parsed URL that the validity check looks at. */
  datatype UrlParts = UrlParts(scheme: string, netloc: string)

  /** What parsing a string yields: its components, or a raised `ValueError`. */
  datatype ParseOutcome = Parsed(parts: UrlParts) | ParseValueError

  /** Python truthiness of a string: only the empty string is falsy. */
  predicate Truthy(s: string) {
    s != ""
  }

  /** Python's `all` over a list of strings. */
  function AllTruthy(xs: seq<string>): (ok: bool)
    ensures ok <==> forall i :: 0 <= i < |xs| ==> xs[i] != ""
  {
    if xs == [] then true else Truthy(xs[0]) && AllTruthy(xs[1..])
  }

  /**
   * `validate_url`: a URL is accepted when both its scheme and its network
   * location are non-empty; a parse error is caught and gives `false`.
   */
  function ValidateUrl(p: ParseOutcome): (ok: bool)
    ensures ok <==> p.Parsed? && p.parts.scheme != "" && p.parts.netloc != ""
    ensures p.ParseValueError? ==> !ok
  {
    match p
    case ParseValueError => false
    case Parsed(parts) =>
      var components := [parts.scheme, parts.netloc];
      assert components[0] == parts.scheme && components[1] == parts.netloc;
      AllTruthy(components)
  }
}
