# Create-category service: a verified model

This project models the create-category Lambda of the Balu microservices (`save_category/app.py`)
in Dafny. An API Gateway event asks to create a `categories` row for a given name. The
handler `lambda_handler` runs a fixed chain of gates, and the first gate that fails decides the
HTTP status and the message code:

1. read the `cognito:groups` claim from `requestContext.authorizer.claims`;
2. check the admin role;
3. decode the body as JSON;
4. require a truthy `name`;
5. scan `name` against a character blocklist;
6. look the name up with `is_name_duplicate`;
7. insert it with `save_category`.

Behind the handler sits the MySQL table `categories`. The code holds no schema. The model
assumes a unique index on `name`, because the branch for error 1062 (duplicate entry) at
save_category/app.py:181 presupposes one.

The model has five modules:

- `Request` (request.dfy) holds the event, the JSON values, Python truthiness and the responses.
- `Validation` (validation.dfy) holds the gates up to the blocklist scan, as pure functions.
  They follow Python's semantics: `'admin' in role` is a substring test on a string claim and
  membership on a list claim. A missing body is decoded as `{}`. A null body, a JSON body that
  is not an object, and a truthy `name` that is not a string all raise inside the `try` and
  end in the 500 branch.
- `Repository` (repository.dfy) holds the table as a value (`Table`) with its constraints
  (`WellFormed`). It gives the two database operations as specification functions
  (`LookupSpec`, `InsertSpec`) and as methods of the class `CategoryStore`. Those methods
  update the table and the count of open connections in place, and are proved against the
  functions. The store's collation is a parameter `collate: string -> string`: two names are
  the same to the store iff their keys are equal. This is the store's choice (case-sensitive
  or not), and the application never normalises a name itself. The failures of connecting,
  querying, executing and committing are explicit parameters (`QueryEnv`, `InsertEnv`).
- `Handler` (handler.dfy) gives the whole request as the function `Handle` and as the method
  `LambdaHandler`, which runs the chain against a live `CategoryStore`. The lemmas state the
  service's promises.
- `Findings` (findings.dfy) covers two defects of the source and their corrected versions.

Python-level behaviour of the code that the model keeps:

- The role test is a substring test on a string claim, so `"superadmin"` passes.
- The role is checked before the body is decoded. A non-admin with a malformed body therefore
  gets FORBIDDEN, not INVALID_JSON_FORMAT.
- Every falsy `name` gives MISSING_FIELDS: absent, null, `""`, `0`, `false`, `[]` and `{}`.
  A truthy `name` that is not a string makes `re.search` raise TypeError, which gives a 500.
- `save_category` builds a 400 dict on error 1062, and the handler throws it away
  (Finding 1).

## Model

| member | source | states |
|---|---|---|
| `Request.Truthy` | save_category/app.py:91 | `if not name` treats exactly null, `false`, `0`, `""`, `[]` and `{}` as falsy |
| `Validation.IsAdmin` | save_category/app.py:79 | a string claim passes iff `"admin"` occurs in it at some position; a list claim passes iff one of its elements is `"admin"` |
| `Validation.Contains` | save_category/app.py:79 | Python's `sub in s` on strings holds iff `sub` occurs at some position of `s` |
| `Validation.HasForbiddenChar` | save_category/app.py:102 | the blocklist regex matches iff some character of the name is one of `<`, `>`, `/`, backtick, backslash, `{`, `}` |
| `Validation.ExtractRole` | save_category/app.py:76-77 | reports a missing key iff one of `requestContext`, `authorizer`, `claims`, `cognito:groups` is absent, and names the first one missing on that path; otherwise yields the group claim itself |
| `Validation.ScreenName` | save_category/app.py:89-110 | an absent or falsy `name` stops with MISSING_FIELDS; a truthy non-string `name` stops with a 500 (TypeError); a string with a blocklisted character stops with INVALID_CHARACTERS; any other non-empty string is passed on unchanged, and nothing else passes |
| `Validation.ScreenBody` | save_category/app.py:88-89 | only a body that decodes to a JSON object can pass, and such a body is judged by its `name` field alone |
| `Validation.Screen` | save_category/app.py:76-110 | a name that passes every gate is non-empty and free of blocklisted characters; every gate failure is a 400, 403 or 500 |
| `Repository.Count` | save_category/app.py:163-165 | `COUNT(*)` is at most the number of rows, and it is positive iff some row's name equals the queried name under the store's collation |
| `Repository.LookupSpec` | save_category/app.py:159-170 | when the query runs, the answer is true iff a row with that name exists; an error after connecting gives false (fail-open); only a connect error propagates |
| `Repository.Inserted` | save_category/app.py:177-178 | a committed insert appends exactly one row: the given name with status true, the earlier rows untouched |
| `Repository.ExecuteError` | save_category/app.py:177-178 | a statement that reaches the table fails iff the name collides under the collation, and then with IntegrityError 1062 |
| `Repository.InsertSpec` | save_category/app.py:172-200 | either one row `(name, true)` is committed and None is returned, or nothing is committed; the 400 dict comes exactly on error 1062, the 500 dict exactly on another non-integrity `pymysql.Error`; any other IntegrityError commits nothing and returns None; only a connect error or a non-`pymysql` exception propagates |
| `Repository.InsertKeepsWellFormed` | save_category/app.py:177-189 | whatever the store does, an insert keeps names pairwise distinct under the collation, ids distinct and below the next id, and every status true |
| `Repository.CategoryStore.IsNameDuplicate` | save_category/app.py:159-170 | returns what `LookupSpec` gives, leaves the table unchanged and closes its connection on every path that opened one |
| `Repository.CategoryStore.SaveCategory` | save_category/app.py:172-200 | changes the table and returns exactly as `InsertSpec` says, keeps the table's constraints and closes its connection on every path that opened one |
| `Handler.Handle` | save_category/app.py:69-157 | a request stopped by a gate gets that gate's response with the table unchanged; every answer is a 200, 400, 403 or 500, and 200 only as CATEGORY_SAVED. The lemmas below state the rest of the handler's promises |
| `Handler.LambdaHandler` | save_category/app.py:69-157 | the response and the new table are those of `Handle` for the table before the request; the store's constraints hold afterwards |
| `Handler.MissingKeyComesFirst` | save_category/app.py:140-148 | a missing key on the claim path gives 400 MISSING_KEY with an error detail, whatever the body and the store, and the table is unchanged |
| `Handler.NonAdminIsForbidden` | save_category/app.py:79-86 | a group claim without `admin` gives 403 FORBIDDEN whatever the body, and the table is unchanged |
| `Handler.StringRoleIsSubstringTest` | save_category/app.py:79 | a string claim passes on a substring: `"superadmin"` is admitted and `"invalidRole"` is not |
| `Handler.ListRoleIsMembershipTest` | save_category/app.py:79 | examples of the membership test on a list claim: `["viewer", "admin"]` passes; `["superadmin"]` and `[]` do not |
| `Handler.AdminBodyOutcomes` | save_category/app.py:88 | for an admin, a body that is not JSON gives INVALID_JSON_FORMAT, a missing body gives MISSING_FIELDS, and a null or non-object body gives a 500; none of them touches the table |
| `Handler.FalsyNameIsMissingField` | save_category/app.py:89-99 | a missing or falsy `name` gives MISSING_FIELDS, and the table is unchanged |
| `Handler.BlocklistedNameRejected` | save_category/app.py:102-110 | a string name with any blocklisted character gives INVALID_CHARACTERS, and the table is unchanged |
| `Handler.GateFailureSkipsStore` | save_category/app.py:76-110 | when a gate fails, the response depends neither on the table nor on anything the store does, and the table is unchanged |
| `Handler.PassingNameIsVerbatim` | save_category/app.py:102-113 | an admin's non-empty string name without blocklisted characters passes exactly as sent, whitespace-only names included |
| `Handler.ExistingNameIsDuplicate` | save_category/app.py:113-121 | a name the table holds under its collation gives DUPLICATE_NAME when the lookup query runs, and the table is unchanged |
| `Handler.SavedWhateverInsertReturns` | save_category/app.py:123-130 | after a negative lookup the answer is CATEGORY_SAVED whatever `save_category` returns, unless it raises; when the lookup query ran, a clean insert stores the submitted name itself |
| `Handler.LookupConnectErrorIsInternal` | save_category/app.py:149-157 | a connect failure in the lookup gives 500 INTERNAL_SERVER_ERROR carrying the exception text, and the table is unchanged |
| `Handler.AtMostOneRow` | save_category/app.py:123-130 | a request adds at most one row, holding the screened name, and only a request answered CATEGORY_SAVED adds one |
| `Handler.HandleKeepsWellFormed` | save_category/app.py:180-189 | names stay pairwise distinct under the collation after any request, whatever the store does |
| `Handler.SecondSubmissionNeverStores` | save_category/app.py:113-130 | once a request has stored a name, submitting it again never stores it again, and with a running lookup the answer is DUPLICATE_NAME |
| `Handler.ValidNameExample` | tests/unit/test_app_save_category.py:37-60 | an admin's `"validname"` is stored into an empty table as row `(1, "validname", true)` and answered CATEGORY_SAVED |
| `Handler.DuplicateNameExample` | tests/unit/test_app_save_category.py:12-35 | an admin's `"duplicate"`, which the table already holds, is answered DUPLICATE_NAME, and the table is unchanged |
| `Handler.RejectedBodyExamples` | tests/unit/test_app_save_category.py:62-113 | for an admin, the body `"invalid json"` gives INVALID_JSON_FORMAT, the body `{}` gives MISSING_FIELDS and the name `"invalid<>name"` gives INVALID_CHARACTERS, whatever the store |
| `Handler.InvalidRoleExample` | tests/unit/test_app_save_category.py:132-149 | the claim `"invalidRole"` is answered FORBIDDEN whatever the body and the store |
| `Handler.MissingAuthorizerExample` | tests/unit/test_app_save_category.py:171-184 | an empty `requestContext` is answered 400 MISSING_KEY with the error detail `'authorizer'`, whatever the body and the store |
| `Handler.UnexpectedLookupErrorExample` | tests/unit/test_app_save_category.py:186-208 | an exception `"Unexpected error"` raised by the duplicate lookup is answered 500 INTERNAL_SERVER_ERROR carrying that text |
| `Findings.AsWrittenSavedWithoutStoring` | save_category/app.py:123 | as written, when the lookup fails open on a stored name, `save_category` returns the 1062 dict, yet the handler answers CATEGORY_SAVED and stores nothing |
| `Findings.AsWrittenResubmissionSaved` | save_category/app.py:123-130 | as written, with `"validname"` already stored and a failing lookup query, a second `"validname"` is answered CATEGORY_SAVED and the table is unchanged |
| `Findings.AsWrittenRaceSaved` | save_category/app.py:113-130 | as written, when a concurrent request stores the name between a lookup that found nothing and the insert, `save_category` returns the 1062 dict, yet the handler answers CATEGORY_SAVED and stores nothing |
| `Findings.AsWrittenOtherIntegrityErrorLooksLikeSuccess` | save_category/app.py:180-189 | as written, an IntegrityError other than 1062 commits nothing and returns None, the same value a committed insert returns |
| `Findings.InsertIntended` | save_category/app.py:172-200 | in the corrected insert, None is returned iff the row was committed; error 1062, whether injected or raised by the unique index, returns the 400 dict exactly; every other `pymysql.Error`, IntegrityError included, returns the 500 dict |
| `Findings.HandleIntended` | save_category/app.py:113-130 | in the corrected handler, the answer is CATEGORY_SAVED iff a row was added, and that row holds the screened name; when the lookup says no duplicate but the insert raises 1062, the answer is the 400 dict and the table is unchanged |
| `Findings.IntendedAgreesWhenStored` | save_category/app.py:123-130 | the corrected handler answers exactly as the code does whenever the code's answer is not a false CATEGORY_SAVED |
| `Findings.IntendedKeepsWellFormed` | save_category/app.py:180-189 | the corrected handler also keeps names pairwise distinct under the collation |
| `Findings.IntendedSecondSubmissionNeverSaved` | save_category/app.py:113-130 | under the corrected handler, a name once saved is never answered CATEGORY_SAVED again and is never stored twice, whatever the store does |

## Left out

- `get_secret` and the module-level credential load (save_category/app.py:8-64) are left out. They are AWS Secrets Manager I/O done once at process start. The connection parameters they produce play no part in any decision.
- The pymysql connection, the cursor and the SQL text are left out. They are replaced by the abstract table and by the `QueryEnv`/`InsertEnv` parameters, which say which failure, if any, the store produces.
- The CORS headers, the `json.dumps` framing of the response body, and the `logger` and `print` calls are left out. They are transport and logging, with no decision logic.
- Concurrency is left out. The model runs one request at a time, and the lookup and the insert see the same table. Another request inserting the same name between them is not modelled as a second request. Its effect is: a lookup that runs and finds no row, followed by an insert that fails with `InsertFails(IntegrityError(1062))`, stands for that race. The unique index is the guard that catches it.
- Python's own exception messages are left out. When the interpreter raises inside the handler (`json.loads(None)`, `body.get` on a non-object, `re.search` on a non-string), the model carries the exception class name as the error detail, not Python's wording. The KeyError detail (the quoted key) and the text of a store exception are modelled exactly.
- The model assumes the dictionaries on the claim path are dictionaries. An event whose `requestContext`, `authorizer` or `claims` holds another type would raise TypeError, and this is not modelled.
- The group claim is modelled as a string or a list of strings. Other JSON types are not modelled.
- JSON numbers are modelled as reals. The `NaN` and `Infinity` literals that Python's decoder also accepts are not modelled.
- The unique index on `name` is assumed, not taken from a schema: save_category/app.py:181 expects error 1062 from it. `ExecuteError` builds it in, and `InsertKeepsWellFormed`, `HandleKeepsWellFormed`, `SecondSubmissionNeverStores` and the corrected `IntendedKeepsWellFormed` and `IntendedSecondSubmissionNeverSaved` hold only because of it.
- A failing `connection.close()` in the `finally` blocks (save_category/app.py:170, 200) is not modelled. Such an exception would replace the return value of `is_name_duplicate` or `save_category` and reach the handler's 500 branch. `QueryEnv` and `InsertEnv` have no outcome for it.
- Auto-increment ids consumed by failed inserts are not modelled. An id is allocated only when a row is committed.
- The test of `get_secret` (tests/unit/test_app_save_category.py:151-169) is not part of this model, because `get_secret` is left out.

## Findings

| source | as written | input that shows it | evidently intended | confidence | as-written member | corrected member |
|---|---|---|---|---|---|---|
| save_category/app.py:123 | `save_category(name, headers)` is called and its returned response dict is discarded; the handler always answers 200 CATEGORY_SAVED | admin request for "validname", table already holding "validname", the lookup query raising after connecting (fail-open false), the insert rejected by the unique index with 1062: the answer is CATEGORY_SAVED and nothing is stored. Second trigger, a race: the lookup query runs and finds no row, another request stores the name, and the insert fails with 1062: again CATEGORY_SAVED and nothing stored | the dict returned by `save_category` is the response, so a request is answered CATEGORY_SAVED iff a row was stored | high (not executed) | `Findings.AsWrittenSavedWithoutStoring` | `Findings.HandleIntended` |
| save_category/app.py:180-189 | an IntegrityError whose code is not 1062 falls through its `except` block without a return, so `save_category` returns None | insert raising IntegrityError 1452 (foreign key) or 1048 (NOT NULL): nothing is committed and None is returned, the same as a committed insert | every error other than 1062 returns the 500 dict, as the `pymysql.Error` branch does | medium (not executed) | `Findings.AsWrittenOtherIntegrityErrorLooksLikeSuccess` | `Findings.InsertIntended` |

`Repository`, `Handler` and `CategoryStore` model the code as written. The corrected
definitions in `Findings` are proved beside them, and `HandleIntended` builds on
`InsertIntended`.
