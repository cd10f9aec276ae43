/** `lambda_handler`: the gate chain, the duplicate lookup and the insert, with the
    exception-to-response mapping. `Handle` is the whole request as a function of the event,
    the table before the request and what the store's two connections do; `LambdaHandler`
    runs the same chain against a live `CategoryStore`. */
module Handler {
  import opened Request
  import opened Validation
  import opened Repository

  /** The response and the table after the request. */
  datatype HandlerOutcome = HandlerOutcome(response: Response, table: Table)

  function Handle(e: Event, t: Table, collate: Collation, lookup: QueryEnv, insert: InsertEnv): (o: HandlerOutcome)
    ensures Screen(e).Stop? ==> o == HandlerOutcome(Screen(e).response, t)
    ensures o.response.statusCode in {200, 400, 403, 500}
    ensures o.response.statusCode == 200 <==> o.response == CategorySaved
  {
    match Screen(e)
    case Stop(response) => HandlerOutcome(response, t)
    case Proceed(name) =>
      match LookupSpec(t, collate, name, lookup)
      case LookupRaised(msg) => HandlerOutcome(InternalServerError(msg), t)
      case Answer(duplicate) =>
        if duplicate then HandlerOutcome(DuplicateName, t)
        else
          var ins := InsertSpec(t, collate, name, insert);
          match ins.result
          case SaveRaised(msg) => HandlerOutcome(InternalServerError(msg), ins.table)
          // the value save_category returns is not consulted
          case Returned(_) => HandlerOutcome(CategorySaved, ins.table)
  }

  method LambdaHandler(e: Event, store: CategoryStore, lookup: QueryEnv, insert: InsertEnv) returns (response: Response)
    requires store.Valid()
    modifies store
    ensures store.Valid()
    ensures HandlerOutcome(response, store.Snapshot()) == Handle(e, old(store.Snapshot()), store.collate, lookup, insert)
  {
    var gate := Screen(e);
    if gate.Stop? {
      return gate.response;
    }
    var name := gate.name;
    var found := store.IsNameDuplicate(name, lookup);
    if found.LookupRaised? {
      return InternalServerError(found.msg);
    }
    if found.duplicate {
      return DuplicateName;
    }
    var saved := store.SaveCategory(name, insert);
    if saved.SaveRaised? {
      return InternalServerError(saved.msg);
    }
    response := CategorySaved;
  }

  /** The claim path requestContext.authorizer.claims["cognito:groups"] is complete. */
  predicate HasRole(e: Event) {
    ExtractRole(e).Role?
  }

  predicate AdminEvent(e: Event) {
    HasRole(e) && IsAdmin(ExtractRole(e).role)
  }

  /** A missing key on the claim path gives 400 MISSING_KEY with an error detail, whatever
      the body and the store, before any role, body or database check. */
  lemma MissingKeyComesFirst(e: Event, t: Table, collate: Collation, lookup: QueryEnv, insert: InsertEnv)
    requires e.requestContext.None? || e.requestContext.value.authorizer.None? ||
             e.requestContext.value.authorizer.value.claims.None? ||
             e.requestContext.value.authorizer.value.claims.value.groups.None?
    ensures var o := Handle(e, t, collate, lookup, insert);
      o.table == t && o.response.statusCode == 400 && o.response.message == "MISSING_KEY" &&
      o.response.error.Some?
  {
  }

  /** A group claim without `admin` gives 403 FORBIDDEN whatever the body, and the table is
      untouched. */
  lemma NonAdminIsForbidden(e: Event, t: Table, collate: Collation, lookup: QueryEnv, insert: InsertEnv)
    requires HasRole(e) && !IsAdmin(ExtractRole(e).role)
    ensures Handle(e, t, collate, lookup, insert) == HandlerOutcome(Forbidden, t)
  {
  }

  /** The role test on a string claim is a substring test: "superadmin" passes,
      "invalidRole" does not. */
  lemma StringRoleIsSubstringTest()
    ensures IsAdmin(Str("admin")) && IsAdmin(Str("superadmin")) && !IsAdmin(Str("invalidRole"))
  {
    assert OccursAt("admin", "admin", 0);
    assert OccursAt("superadmin", "admin", 5);
    MissingCharMeansAbsent("invalidRole", "admin", 'm');
  }

  /** The role test on a list claim is element membership: "superadmin" in a list does not pass. */
  lemma ListRoleIsMembershipTest()
    ensures IsAdmin(List(["viewer", "admin"])) && !IsAdmin(List(["superadmin"])) && !IsAdmin(List([]))
  {
  }

  /** For an admin: a body that is not JSON gives INVALID_JSON_FORMAT; a missing body counts as
      `{}` and gives MISSING_FIELDS; a null body or a JSON value that is not an object gives a
      500 INTERNAL_SERVER_ERROR. None of them touches the table. */
  lemma AdminBodyOutcomes(e: Event, t: Table, collate: Collation, lookup: QueryEnv, insert: InsertEnv)
    requires AdminEvent(e)
    ensures var o := Handle(e, t, collate, lookup, insert);
      (e.body.Unparseable? ==> o == HandlerOutcome(InvalidJsonFormat, t)) &&
      (e.body.Absent? ==> o == HandlerOutcome(MissingFields, t)) &&
      (e.body.NonString? || (e.body.Parsed? && !e.body.value.JObject?) ==>
         o.table == t && o.response.statusCode == 500 && o.response.message == "INTERNAL_SERVER_ERROR")
  {
  }

  /** For an admin with a JSON object body, a missing or falsy `name` (null, false, 0, "", [],
      {}) gives MISSING_FIELDS with no database access: the response does not depend on the
      table or on the store's behaviour. */
  lemma FalsyNameIsMissingField(e: Event, t: Table, collate: Collation, lookup: QueryEnv, insert: InsertEnv)
    requires AdminEvent(e) && e.body.Parsed? && e.body.value.JObject?
    requires "name" !in e.body.value.fields || !Truthy(e.body.value.fields["name"])
    ensures Handle(e, t, collate, lookup, insert) == HandlerOutcome(MissingFields, t)
  {
  }

  /** A string name holding any of `<`, `>`, `/`, backtick, backslash, `{`, `}` gives
      INVALID_CHARACTERS with no database access. */
  lemma BlocklistedNameRejected(e: Event, t: Table, collate: Collation, lookup: QueryEnv, insert: InsertEnv, k: nat)
    requires AdminEvent(e) && e.body.Parsed? && e.body.value.JObject?
    requires "name" in e.body.value.fields && e.body.value.fields["name"].JString?
    requires k < |e.body.value.fields["name"].s| && e.body.value.fields["name"].s[k] in Blocklist
    ensures Handle(e, t, collate, lookup, insert) == HandlerOutcome(InvalidCharacters, t)
  {
  }

  /** Every gate failure ends the request before the database is reached: the response is the
      gate's whatever the table and the store do, and the table is unchanged. */
  lemma GateFailureSkipsStore(e: Event, t: Table, collate: Collation, lookup: QueryEnv, insert: InsertEnv,
                              t': Table, collate': Collation, lookup': QueryEnv, insert': InsertEnv)
    requires Screen(e).Stop?
    ensures Handle(e, t, collate, lookup, insert).response == Handle(e, t', collate', lookup', insert').response
    ensures Handle(e, t, collate, lookup, insert).table == t
  {
  }

  /** The name that passes the gates is the body's `name` string exactly, with no trimming or
      case folding; whitespace-only names pass. Only the role and the name decide. */
  lemma PassingNameIsVerbatim(e: Event)
    requires AdminEvent(e) && e.body.Parsed? && e.body.value.JObject?
    requires "name" in e.body.value.fields && e.body.value.fields["name"].JString?
    requires e.body.value.fields["name"].s != "" && forall i :: 0 <= i < |e.body.value.fields["name"].s| ==> e.body.value.fields["name"].s[i] !in Blocklist
    ensures Screen(e) == Proceed(e.body.value.fields["name"].s)
  {
  }

  /** A name the store already holds (under its collation) gives DUPLICATE_NAME when the lookup
      query runs, and the table is unchanged. */
  lemma ExistingNameIsDuplicate(e: Event, t: Table, collate: Collation, insert: InsertEnv, k: nat)
    requires Screen(e).Proceed? && k < |t.rows| && collate(t.rows[k].name) == collate(Screen(e).name)
    ensures Handle(e, t, collate, QueryRuns, insert) == HandlerOutcome(DuplicateName, t)
  {
  }

  /** Once the lookup answers "not a duplicate", the handler reports CATEGORY_SAVED whatever
      `save_category` returned, unless it raised an exception it does not catch; when the statement reaches the
      table, the stored row is the name exactly as submitted, with status true. */
  lemma SavedWhateverInsertReturns(e: Event, t: Table, collate: Collation, lookup: QueryEnv, insert: InsertEnv)
    requires Screen(e).Proceed? && LookupSpec(t, collate, Screen(e).name, lookup) == Answer(false)
    ensures var o := Handle(e, t, collate, lookup, insert);
      (Propagates(insert) ==> o == HandlerOutcome(InternalServerError(insert.msg), t)) &&
      (!Propagates(insert) ==> o.response == CategorySaved) &&
      (lookup.QueryRuns? && insert.InsertRuns? ==> o.table == Inserted(t, Screen(e).name))
  {
  }

  /** A connect failure in the lookup propagates as a 500 carrying the exception text. */
  lemma LookupConnectErrorIsInternal(e: Event, t: Table, collate: Collation, msg: string, insert: InsertEnv)
    requires Screen(e).Proceed?
    ensures Handle(e, t, collate, QueryConnectFails(msg), insert) ==
            HandlerOutcome(Response(500, "INTERNAL_SERVER_ERROR", Some(msg)), t)
  {
  }

  /** A request adds at most one row, holding the screened name; and only a request answered
      CATEGORY_SAVED adds one. */
  lemma AtMostOneRow(e: Event, t: Table, collate: Collation, lookup: QueryEnv, insert: InsertEnv)
    ensures var o := Handle(e, t, collate, lookup, insert);
      o.table == t || (Screen(e).Proceed? && o.table == Inserted(t, Screen(e).name) && o.response == CategorySaved)
  {
  }

  /** Names stay pairwise distinct under the store's collation (and ids distinct, statuses
      true) after any request, whatever the store does. */
  lemma HandleKeepsWellFormed(e: Event, t: Table, collate: Collation, lookup: QueryEnv, insert: InsertEnv)
    requires WellFormed(t, collate)
    ensures WellFormed(Handle(e, t, collate, lookup, insert).table, collate)
  {
    if Screen(e).Proceed? {
      InsertKeepsWellFormed(t, collate, Screen(e).name, insert);
    }
  }

  /** Submitting a stored name a second time never stores it again, whichever guard catches it;
      with a lookup that runs the answer is DUPLICATE_NAME. */
  lemma SecondSubmissionNeverStores(e: Event, t: Table, collate: Collation,
                                     lookup: QueryEnv, insert: InsertEnv,
                                     lookup': QueryEnv, insert': InsertEnv)
    requires Handle(e, t, collate, lookup, insert).table != t
    ensures var u := Handle(e, t, collate, lookup, insert).table;
      Handle(e, u, collate, lookup', insert').table == u &&
      (lookup'.QueryRuns? ==> Handle(e, u, collate, lookup', insert').response == DuplicateName)
  {
    AtMostOneRow(e, t, collate, lookup, insert);
    var name := Screen(e).name;
    var u := Inserted(t, name);
    assert collate(u.rows[|t.rows|].name) == collate(name);
    var ins := InsertSpec(u, collate, name, insert');
    assert ins.table == u;
  }

  function AdminContext(): Option<Context> {
    Some(Context(Some(Authorizer(Some(Claims(Some(Str("admin"))))))))
  }

  function NameBody(name: string): Body {
    Parsed(JObject(map["name" := JString(name)]))
  }

  /** The unit test of the valid path on a binary collation: "validname" is stored into an
      empty table as row `(1, "validname", true)` and answered CATEGORY_SAVED. */
  lemma ValidNameExample()
    ensures Handle(Event(AdminContext(), NameBody("validname")), Table([], 1), (s: string) => s, QueryRuns, InsertRuns) ==
              HandlerOutcome(CategorySaved, Table([Category(1, "validname", true)], 2))
  {
    assert !HasForbiddenChar("validname");
    AdminNameScreened("validname");
  }

  /** The unit test of the duplicate path on a binary collation: "duplicate", which the table
      already holds, is answered DUPLICATE_NAME and the table is kept. */
  lemma DuplicateNameExample(insert: InsertEnv)
    ensures var stored := Table([Category(1, "duplicate", true)], 2);
      Handle(Event(AdminContext(), NameBody("duplicate")), stored, (s: string) => s, QueryRuns, insert) ==
        HandlerOutcome(DuplicateName, stored)
  {
    assert !HasForbiddenChar("duplicate");
    AdminNameScreened("duplicate");
  }

  /** The unit tests of the body gates: for an admin, the name "invalid<>name" gives
      INVALID_CHARACTERS, the body "invalid json" (which does not decode) gives
      INVALID_JSON_FORMAT and the body `{}` gives MISSING_FIELDS, whatever the store. */
  lemma RejectedBodyExamples(t: Table, collate: Collation, lookup: QueryEnv, insert: InsertEnv)
    ensures Handle(Event(AdminContext(), NameBody("invalid<>name")), t, collate, lookup, insert) ==
              HandlerOutcome(InvalidCharacters, t)
    ensures Handle(Event(AdminContext(), Unparseable), t, collate, lookup, insert) ==
              HandlerOutcome(InvalidJsonFormat, t)
    ensures Handle(Event(AdminContext(), Parsed(JObject(map[]))), t, collate, lookup, insert) ==
              HandlerOutcome(MissingFields, t)
  {
    assert OccursAt("admin", "admin", 0);
    assert "invalid<>name"[7] in Blocklist;
  }

  /** The unit test of the role gate: the claim "invalidRole" is answered FORBIDDEN whatever
      the body and the store. */
  lemma InvalidRoleExample(b: Body, t: Table, collate: Collation, lookup: QueryEnv, insert: InsertEnv)
    ensures Handle(Event(Some(Context(Some(Authorizer(Some(Claims(Some(Str("invalidRole")))))))), b), t, collate, lookup, insert) ==
              HandlerOutcome(Forbidden, t)
  {
    MissingCharMeansAbsent("invalidRole", "admin", 'm');
  }

  /** The unit test of the claim path: an empty `requestContext` is answered 400 MISSING_KEY
      naming the missing key `'authorizer'`, whatever the body and the store. */
  lemma MissingAuthorizerExample(b: Body, t: Table, collate: Collation, lookup: QueryEnv, insert: InsertEnv)
    ensures Handle(Event(Some(Context(None)), b), t, collate, lookup, insert) ==
              HandlerOutcome(Response(400, "MISSING_KEY", Some("'authorizer'")), t)
  {
    var quoted := "'" + "authorizer" + "'";
    assert |quoted| == 12;
    assert forall i :: 0 <= i < 12 ==> quoted[i] == "'authorizer'"[i];
    assert quoted == "'authorizer'";
    var e := Event(Some(Context(None)), b);
    assert ExtractRole(e) == MissingKeyAt("authorizer");
    assert Screen(e) == Stop(MissingKey("authorizer"));
  }

  /** The unit test of the catch-all branch: an exception "Unexpected error" raised by the
      duplicate lookup is answered 500 INTERNAL_SERVER_ERROR carrying that text. */
  lemma UnexpectedLookupErrorExample(t: Table, collate: Collation, insert: InsertEnv)
    ensures Handle(Event(AdminContext(), NameBody("validname")), t, collate, QueryConnectFails("Unexpected error"), insert) ==
              HandlerOutcome(Response(500, "INTERNAL_SERVER_ERROR", Some("Unexpected error")), t)
  {
    assert !HasForbiddenChar("validname");
    AdminNameScreened("validname");
  }

  /** An admin's non-empty name without blocklisted characters passes every gate unchanged. */
  lemma AdminNameScreened(name: string)
    requires name != "" && !HasForbiddenChar(name)
    ensures Screen(Event(AdminContext(), NameBody(name))) == Proceed(name)
  {
    assert OccursAt("admin", "admin", 0);
    assert ScreenName(map["name" := JString(name)]) == Proceed(name);
  }
}
