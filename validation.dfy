/** The gates of the create-category handler that run before any database access:
    claim extraction, the admin role check, body decoding, the `name` presence check and
    the blocklist scan. The first gate that fails decides the response. */
module Validation {
  import opened Request

  /** `i` is a position where `sub` occurs in `s`. */
  predicate OccursAt(s: string, sub: string, i: nat) {
    i + |sub| <= |s| && s[i..i + |sub|] == sub
  }

  /** Python's `sub in s` on strings: a substring test, not an equality test. */
  function Contains(s: string, sub: string): (r: bool)
    ensures r <==> exists i: nat :: OccursAt(s, sub, i)
    decreases |s|
  {
    if |s| < |sub| then
      assert forall i: nat :: !OccursAt(s, sub, i);
      false
    else if s[..|sub|] == sub then
      assert OccursAt(s, sub, 0);
      true
    else
      var rest := Contains(s[1..], sub);
      ShiftOccurrence(s, sub);
      rest
  }

  /** An occurrence in `s` after position 0 is an occurrence in `s[1..]`, one place earlier. */
  lemma ShiftOccurrence(s: string, sub: string)
    requires |s| >= |sub| && s[..|sub|] != sub
    ensures (exists i: nat :: OccursAt(s, sub, i)) <==> (exists i: nat :: OccursAt(s[1..], sub, i))
  {
    forall i: nat | OccursAt(s, sub, i)
      ensures i >= 1 && OccursAt(s[1..], sub, i - 1)
    {
      assert i != 0;
      assert s[1..][i - 1..i - 1 + |sub|] == s[i..i + |sub|];
    }
    forall i: nat | OccursAt(s[1..], sub, i)
      ensures OccursAt(s, sub, i + 1)
    {
      assert s[1..][i..i + |sub|] == s[i + 1..i + 1 + |sub|];
    }
  }

  /** A string lacking some character of `sub` does not contain `sub`. */
  lemma MissingCharMeansAbsent(s: string, sub: string, c: char)
    requires c in sub && c !in s
    ensures !Contains(s, sub)
  {
  }

  /** The role check `'admin' not in role`: a substring test on a string claim
      (so "superadmin" passes), element membership on a list claim. */
  function IsAdmin(role: GroupClaim): (r: bool)
    ensures role.Str? ==> (r <==> exists i: nat :: OccursAt(role.s, "admin", i))
    ensures role.List? ==> (r <==> exists i :: 0 <= i < |role.groups| && role.groups[i] == "admin")
  {
    match role
    case Str(s) => Contains(s, "admin")
    case List(groups) => "admin" in groups
  }

  /** The characters of the regular expression class `[<>/``\\{}]`. */
  const Blocklist: set<char> := {'<', '>', '/', '`', '\\', '{', '}'}

  /** re.search over the blocklist class: true iff some character of `s` is blocklisted. */
  function HasForbiddenChar(s: string): (r: bool)
    ensures r <==> exists i :: 0 <= i < |s| && s[i] in Blocklist
  {
    if s == [] then false
    else if s[0] in Blocklist then true
    else
      var rest := HasForbiddenChar(s[1..]);
      assert forall i :: 1 <= i < |s| ==> s[i] == s[1..][i - 1];
      rest
  }

  /** What the gates decide: a terminal response, or the name to look up and insert. */
  datatype Gate = Stop(response: Response) | Proceed(name: string)

  /** `claims = event['requestContext']['authorizer']['claims']; role = claims['cognito:groups']`:
      the group claim, or the first key missing on that path, which the KeyError names. */
  function ExtractRole(e: Event): (r: RoleLookup)
    ensures r.MissingKeyAt? <==>
      (e.requestContext.None? || e.requestContext.value.authorizer.None? ||
       e.requestContext.value.authorizer.value.claims.None? ||
       e.requestContext.value.authorizer.value.claims.value.groups.None?)
    ensures r.Role? ==> Some(r.role) == e.requestContext.value.authorizer.value.claims.value.groups
    ensures e.requestContext.None? ==> r == MissingKeyAt("requestContext")
    ensures e.requestContext.Some? && e.requestContext.value.authorizer.None? ==> r == MissingKeyAt("authorizer")
    ensures (e.requestContext.Some? && e.requestContext.value.authorizer.Some? &&
             e.requestContext.value.authorizer.value.claims.None?) ==> r == MissingKeyAt("claims")
    ensures (e.requestContext.Some? && e.requestContext.value.authorizer.Some? &&
             e.requestContext.value.authorizer.value.claims.Some? &&
             e.requestContext.value.authorizer.value.claims.value.groups.None?) ==> r == MissingKeyAt("cognito:groups")
  {
    match e.requestContext
    case None => MissingKeyAt("requestContext")
    case Some(ctx) =>
      match ctx.authorizer
      case None => MissingKeyAt("authorizer")
      case Some(auth) =>
        match auth.claims
        case None => MissingKeyAt("claims")
        case Some(claims) =>
          match claims.groups
          case None => MissingKeyAt("cognito:groups")
          case Some(role) => Role(role)
  }

  datatype RoleLookup = Role(role: GroupClaim) | MissingKeyAt(key: string)

  /** The `name` gates on a decoded JSON object: `body.get('name')`, `if not name`,
      then re.search, which raises TypeError on a truthy value that is not a string. */
  function ScreenName(fields: map<string, JsonValue>): (g: Gate)
    ensures g.Proceed? ==>
      "name" in fields && fields["name"] == JString(g.name) && g.name != "" && !HasForbiddenChar(g.name)
    ensures ("name" in fields && fields["name"].JString? && fields["name"].s != "" &&
             !HasForbiddenChar(fields["name"].s)) ==> g == Proceed(fields["name"].s)
    ensures ("name" !in fields || !Truthy(fields["name"])) ==> g == Stop(MissingFields)
    ensures ("name" in fields && Truthy(fields["name"]) && !fields["name"].JString?) ==>
              g == Stop(InternalServerError("TypeError"))
    ensures ("name" in fields && fields["name"].JString? && HasForbiddenChar(fields["name"].s)) ==>
              g == Stop(InvalidCharacters)
  {
    var name := if "name" in fields then fields["name"] else JNull;
    if !Truthy(name) then Stop(MissingFields)
    else if !name.JString? then Stop(InternalServerError("TypeError"))
    else if HasForbiddenChar(name.s) then Stop(InvalidCharacters)
    else Proceed(name.s)
  }

  /** `json.loads(event.get('body', '{}'))` followed by the name gates. */
  function ScreenBody(b: Body): (g: Gate)
    ensures g.Proceed? ==>
      b.Parsed? && b.value.JObject? && "name" in b.value.fields && b.value.fields["name"] == JString(g.name)
    ensures b.Parsed? && b.value.JObject? ==> g == ScreenName(b.value.fields)
  {
    match b
    case Absent => ScreenName(map[])
    case NonString => Stop(InternalServerError("TypeError"))
    case Unparseable => Stop(InvalidJsonFormat)
    case Parsed(v) =>
      if v.JObject? then ScreenName(v.fields)
      // `body.get` on a list, string, number, boolean or null
      else Stop(InternalServerError("AttributeError"))
  }

  /** All gates of the handler before the duplicate lookup, in the source's order. */
  function Screen(e: Event): (g: Gate)
    ensures g.Proceed? ==> g.name != "" && !HasForbiddenChar(g.name)
    ensures g.Stop? ==> g.response.statusCode in {400, 403, 500}
  {
    match ExtractRole(e)
    case MissingKeyAt(key) => Stop(MissingKey(key))
    case Role(role) =>
      if !IsAdmin(role) then Stop(Forbidden)
      else ScreenBody(e.body)
  }
}
