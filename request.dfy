/** The create-category request as the handler receives it, and the response it returns.
    The event is the API Gateway proxy event: only the claim path
    requestContext.authorizer.claims["cognito:groups"] and the "body" entry are read. */
module Request {

  datatype Option<+T> = None | Some(value: T)

  /** A value produced by Python's json.loads. Integers and floats are both numbers. */
  datatype JsonValue =
    | JNull
    | JBool(b: bool)
    | JNumber(n: real)
    | JString(s: string)
    | JArray(items: seq<JsonValue>)
    | JObject(fields: map<string, JsonValue>)

  /** Python truthiness of a decoded JSON value (`if not name`). */
  function Truthy(v: JsonValue): (r: bool)
    ensures !r <==> (v == JNull || v == JBool(false) || v == JNumber(0.0) || v == JString("") ||
                     v == JArray([]) || v == JObject(map[]))
  {
    match v
    case JNull => false
    case JBool(b) => b
    case JNumber(n) => n != 0.0
    case JString(s) => s != ""
    case JArray(items) => items != []
    case JObject(fields) => fields != map[]
  }

  /** The "body" entry of the event, as json.loads sees it. */
  datatype Body =
    | Absent                  // no "body" key: event.get substitutes the text "{}"
    | NonString               // null or another non-text value: json.loads raises TypeError
    | Unparseable             // text that is not JSON: json.loads raises JSONDecodeError
    | Parsed(value: JsonValue) // text that decodes to this value

  /** The `cognito:groups` claim: a single string or a list of group names. */
  datatype GroupClaim = Str(s: string) | List(groups: seq<string>)

  /** The nested dictionaries on the claim path; a `None` is a missing key. */
  datatype Claims = Claims(groups: Option<GroupClaim>)
  datatype Authorizer = Authorizer(claims: Option<Claims>)
  datatype Context = Context(authorizer: Option<Authorizer>)
  datatype Event = Event(requestContext: Option<Context>, body: Body)

  /** A response: HTTP status, the "message" field and the optional "error" field of the JSON body. */
  datatype Response = Response(statusCode: int, message: string, error: Option<string>)

  const Forbidden := Response(403, "FORBIDDEN", None)
  const MissingFields := Response(400, "MISSING_FIELDS", None)
  const InvalidCharacters := Response(400, "INVALID_CHARACTERS", None)
  const DuplicateName := Response(400, "DUPLICATE_NAME", None)
  const CategorySaved := Response(200, "CATEGORY_SAVED", None)
  const InvalidJsonFormat := Response(400, "INVALID_JSON_FORMAT", None)

  /** The KeyError branch: str(KeyError(k)) is the key in single quotes. */
  function MissingKey(key: string): Response {
    Response(400, "MISSING_KEY", Some("'" + key + "'"))
  }

  /** The catch-all branch: the exception text is passed back to the caller. */
  function InternalServerError(detail: string): Response {
    Response(500, "INTERNAL_SERVER_ERROR", Some(detail))
  }
}
