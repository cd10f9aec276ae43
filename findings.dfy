/** Two defects of the create-category handler, each shown on the model of the code as written
    and repaired in an intended variant:
    1. `lambda_handler` ignores the value `save_category` returns, so a request whose insert
       committed nothing is still answered CATEGORY_SAVED;
    2. `save_category` swallows an IntegrityError whose code is not 1062 and returns None,
       the same value as a committed insert. */
module Findings {
  import opened Request
  import opened Validation
  import opened Repository
  import opened Handler

  /** Defect 1 as written: when the lookup fails open on a name the table already holds, the
      unique index rejects the insert, yet the caller is told CATEGORY_SAVED and nothing is stored. */
  lemma AsWrittenSavedWithoutStoring(e: Event, t: Table, collate: Collation, k: nat)
    requires Screen(e).Proceed? && k < |t.rows| && collate(t.rows[k].name) == collate(Screen(e).name)
    ensures Handle(e, t, collate, QueryFails, InsertRuns) == HandlerOutcome(CategorySaved, t)
    ensures InsertSpec(t, collate, Screen(e).name, InsertRuns).result == Returned(Some(DuplicateDict))
  {
  }

  /** Defect 1 through a race: the lookup query runs and finds no row, but another request
      stores the same name before the insert, whose unique index then raises 1062
      (`InsertFails(IntegrityError(1062))` on a table without the name). The caller is still
      told CATEGORY_SAVED and nothing is stored. */
  lemma AsWrittenRaceSaved(e: Event, t: Table, collate: Collation)
    requires Screen(e).Proceed?
    requires forall i :: 0 <= i < |t.rows| ==> collate(t.rows[i].name) != collate(Screen(e).name)
    ensures Handle(e, t, collate, QueryRuns, InsertFails(IntegrityError(DuplicateEntryCode))) ==
      HandlerOutcome(CategorySaved, t)
    ensures InsertSpec(t, collate, Screen(e).name, InsertFails(IntegrityError(DuplicateEntryCode))).result ==
      Returned(Some(DuplicateDict))
  {
  }

  /** Defect 1 on a concrete request: "validname" already stored, the lookup query failing
      after connecting; a second "validname" is answered CATEGORY_SAVED. */
  lemma AsWrittenResubmissionSaved()
    ensures var stored := Table([Category(1, "validname", true)], 2);
      Handle(Event(AdminContext(), NameBody("validname")), stored, (s: string) => s, QueryFails, InsertRuns) ==
        HandlerOutcome(CategorySaved, stored)
  {
    assert !HasForbiddenChar("validname");
    AdminNameScreened("validname");
    AsWrittenSavedWithoutStoring(Event(AdminContext(), NameBody("validname")), Table([Category(1, "validname", true)], 2), (s: string) => s, 0);
  }

  /** Defect 2 as written: an IntegrityError other than 1062 (a foreign key or a NOT NULL
      violation, say) commits nothing and returns None, exactly what a committed insert returns. */
  lemma AsWrittenOtherIntegrityErrorLooksLikeSuccess(t: Table, collate: Collation, name: string, code: int)
    requires code != DuplicateEntryCode
    requires forall i :: 0 <= i < |t.rows| ==> collate(t.rows[i].name) != collate(name)
    ensures InsertSpec(t, collate, name, InsertFails(IntegrityError(code))) == InsertOutcome(Returned(None), t)
    ensures InsertSpec(t, collate, name, InsertRuns) == InsertOutcome(Returned(None), Inserted(t, name))
  {
  }

  /** `save_category` as intended: every `pymysql.Error` other than 1062, IntegrityError or not,
      returns the 500 dict; None then means exactly that the row was committed. */
  function InsertIntended(t: Table, collate: Collation, name: string, env: InsertEnv): (o: InsertOutcome)
    ensures o.table == t || o.table == Inserted(t, name)
    ensures o.result == Returned(None) <==> o.table != t
    ensures o.table != t <==>
      env.InsertRuns? && forall i :: 0 <= i < |t.rows| ==> collate(t.rows[i].name) != collate(name)
    ensures o.result.SaveRaised? <==> Propagates(env)
    ensures o.result == Returned(Some(DuplicateDict)) <==>
      env == InsertFails(IntegrityError(DuplicateEntryCode)) ||
      (env.InsertRuns? && exists i :: 0 <= i < |t.rows| && collate(t.rows[i].name) == collate(name))
    ensures env.InsertFails? && env.err != IntegrityError(DuplicateEntryCode) ==>
      o == InsertOutcome(Returned(Some(SaveErrorDict)), t)
  {
    if Propagates(env) then InsertOutcome(SaveRaised(env.msg), t)
    else
      match ExecuteError(t, collate, name, env)
      case None => InsertOutcome(Returned(None), Inserted(t, name))
      case Some(IntegrityError(code)) =>
        InsertOutcome(Returned(Some(if code == DuplicateEntryCode then DuplicateDict else SaveErrorDict)), t)
      case Some(OtherDbError) => InsertOutcome(Returned(Some(SaveErrorDict)), t)
  }

  /** `lambda_handler` as intended: a dict returned by `save_category` is the response. */
  function HandleIntended(e: Event, t: Table, collate: Collation, lookup: QueryEnv, insert: InsertEnv): (o: HandlerOutcome)
    ensures o.response == CategorySaved <==> o.table != t
    ensures o.table == t || (Screen(e).Proceed? && o.table == Inserted(t, Screen(e).name))
    ensures (Screen(e).Proceed? && LookupSpec(t, collate, Screen(e).name, lookup) == Answer(false) &&
             insert == InsertFails(IntegrityError(DuplicateEntryCode))) ==>
      o == HandlerOutcome(DuplicateDict, t)
  {
    match Screen(e)
    case Stop(response) => HandlerOutcome(response, t)
    case Proceed(name) =>
      match LookupSpec(t, collate, name, lookup)
      case LookupRaised(msg) => HandlerOutcome(InternalServerError(msg), t)
      case Answer(duplicate) =>
        if duplicate then HandlerOutcome(DuplicateName, t)
        else
          var ins := InsertIntended(t, collate, name, insert);
          match ins.result
          case SaveRaised(msg) => HandlerOutcome(InternalServerError(msg), ins.table)
          case Returned(None) => HandlerOutcome(CategorySaved, ins.table)
          case Returned(Some(dict)) => HandlerOutcome(dict, ins.table)
  }

  /** The intended handler agrees with the code wherever the code's answer is truthful. */
  lemma IntendedAgreesWhenStored(e: Event, t: Table, collate: Collation, lookup: QueryEnv, insert: InsertEnv)
    requires Handle(e, t, collate, lookup, insert).table != t || Handle(e, t, collate, lookup, insert).response != CategorySaved
    ensures HandleIntended(e, t, collate, lookup, insert) == Handle(e, t, collate, lookup, insert)
  {
  }

  /** The intended handler keeps names pairwise distinct under the collation. */
  lemma IntendedKeepsWellFormed(e: Event, t: Table, collate: Collation, lookup: QueryEnv, insert: InsertEnv)
    requires WellFormed(t, collate)
    ensures WellFormed(HandleIntended(e, t, collate, lookup, insert).table, collate)
  {
    if Screen(e).Proceed? {
      var name := Screen(e).name;
      InsertKeepsWellFormed(t, collate, name, InsertRuns);
      assert HandleIntended(e, t, collate, lookup, insert).table == t ||
             HandleIntended(e, t, collate, lookup, insert).table == InsertSpec(t, collate, name, InsertRuns).table;
    }
  }

  /** Submitting the same name a second time is never answered CATEGORY_SAVED by the intended
      handler, whichever guard catches it and whatever the store does. */
  lemma IntendedSecondSubmissionNeverSaved(e: Event, t: Table, collate: Collation,
                                            lookup: QueryEnv, insert: InsertEnv,
                                            lookup': QueryEnv, insert': InsertEnv)
    requires HandleIntended(e, t, collate, lookup, insert).response == CategorySaved
    ensures var u := HandleIntended(e, t, collate, lookup, insert).table;
      HandleIntended(e, u, collate, lookup', insert').table == u &&
      HandleIntended(e, u, collate, lookup', insert').response != CategorySaved
  {
    var name := Screen(e).name;
    var u := Inserted(t, name);
    assert collate(u.rows[|t.rows|].name) == collate(name);
    assert InsertIntended(u, collate, name, insert').table == u;
  }
}
