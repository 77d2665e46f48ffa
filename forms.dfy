/**
 * The two model forms: starting a contest and submitting a clue. Their per-field
 * checks restate the admission rules of the managers (one open contest per user,
 * the likes owed, the contest still open after a refresh), and their `save`
 * hands the cleaned fields to the managers by keyword.
 */
module Forms {
  import opened Wrappers
  import opened Text
  import opened Models

  /**
   * The validation errors of the two forms: a required field left empty, a
   * contest id that names no contest, and the errors the custom checks raise.
   */
  datatype FormError =
    | WordMissing | ContestMissing | ClueMissing | ExplanationMissing | NoSuchContest
    | OneOpenContestOnly | LikesOwed(n: nat) | ContestNoLongerOpen

  function FormMessage(e: FormError): string {
    match e
    case WordMissing => "This field is required."
    case ContestMissing => "This field is required."
    case ClueMissing => "Clue is required."
    case ExplanationMissing => "Explanation is required."
    case NoSuchContest => "Select a valid choice. That choice is not one of the available choices."
    case OneOpenContestOnly => "Each user can only have one active contest at a time."
    case LikesOwed(n) => LikesMessage(n)
    case ContestNoLongerOpen => "Sorry, this contest has closed."
  }

  // ---------------------------------------------------------------------------
  // ContestForm
  // ---------------------------------------------------------------------------

  /** `started_by.contests_started.filter(status=SUBMISSIONS).exists()`. */
  function HasOpenContest(contests: seq<Contest>, u: UserId): (b: bool)
    ensures b <==> exists i :: 0 <= i < |contests| && contests[i].startedBy == u && contests[i].status == Submissions
    decreases |contests|
  {
    if contests == [] then false
    else
      var last := contests[|contests| - 1];
      HasOpenContest(contests[..|contests| - 1], u) || (last.startedBy == u && last.status == Submissions)
  }

  /** `ContestForm.clean_started_by`: refused exactly when the user already has a contest taking submissions. */
  function CleanStartedBy(contests: seq<Contest>, u: UserId): (r: Result<UserId, FormError>)
    ensures r.Failure? <==> exists i :: 0 <= i < |contests| && contests[i].startedBy == u && contests[i].status == Submissions
    ensures r.Success? ==> r.value == u
    ensures r.Failure? ==> r.error == OneOpenContestOnly
  {
    if HasOpenContest(contests, u) then Failure(OneOpenContestOnly) else Success(u)
  }

  /** A contest of the user's that is voting or closed does not stop them starting another. */
  lemma FinishedContestDoesNotBlock(c: Contest, u: UserId)
    requires c.startedBy == u && c.status != Submissions
    ensures CleanStartedBy([c], u).Success?
  {}

  /**
   * What `save` gives back: the stored record's id, an unsaved record, the
   * `ValueError` of saving data that did not validate, or the `TypeError` of a
   * call whose keywords do not bind.
   */
  datatype Saved = SavedAs(id: nat) | NotSaved | InvalidData | CallDoesNotBind

  /**
   * The manager methods take parameters by name, and `save` calls them with
   * the form's cleaned fields as keywords: the call binds only when the
   * keywords are exactly the parameters (none of them has a default).
   */
  predicate KeywordsBind(parameters: seq<string>, keywords: seq<string>) {
    (forall name :: name in parameters ==> name in keywords)
    && (forall name :: name in keywords ==> name in parameters)
  }

  const ContestAddParameters: seq<string> := ["word", "started_by"]
  const ContestFormFields: seq<string> := ["word", "started_by"]
  const SubmissionAddParameters: seq<string> := ["data", "user"]
  const SubmissionFormFields: seq<string> := ["clue", "explanation", "contest", "submitted_by"]

  /** `Contest.objects.add(**cleaned_data)` binds `word` and `started_by`. */
  lemma ContestSaveBinds()
    ensures KeywordsBind(ContestAddParameters, ContestFormFields)
  {}

  /** `Submission.objects.add(**cleaned_data)` passes `clue`, which `add(data, user)` does not take. */
  lemma SubmissionSaveDoesNotBind()
    ensures !KeywordsBind(SubmissionAddParameters, SubmissionFormFields)
  {
    assert SubmissionFormFields[0] == "clue";
    assert "clue" !in SubmissionAddParameters;
  }

  /**
   * The errors of a `ContestForm`: the word is required once the field has stripped its
   * surrounding white space, and the user may not already have an open contest.
   */
  function ContestFormErrors(contests: seq<Contest>, word: string, startedBy: UserId): (errors: seq<FormError>)
    ensures WordMissing in errors <==> AllPythonSpace(word)
    ensures OneOpenContestOnly in errors <==>
              exists i :: 0 <= i < |contests| && contests[i].startedBy == startedBy && contests[i].status == Submissions
    ensures forall e :: e in errors ==> e == WordMissing || e == OneOpenContestOnly
  {
    (if Strip(word) == [] then [WordMissing] else [])
    + (match CleanStartedBy(contests, startedBy) case Success(_) => [] case Failure(e) => [e])
  }

  /**
   * `ContestForm.save`: with validation errors it raises; with `commit` it hands
   * the cleaned word (stripped of surrounding white space) and the user to
   * `ContestManager.add` once and stores nothing itself; without `commit` it
   * stores nothing.
   */
  method SaveContestForm(store: Store, word: string, startedBy: UserId, commit: bool, now: int)
    returns (r: Saved)
    requires store.Valid()
    modifies store
    ensures var valid := ContestFormErrors(old(store.contests), word, startedBy) == [];
            && (!valid ==> r == InvalidData)
            && (!(valid && commit) ==>
              store.contests == old(store.contests) && store.notices == old(store.notices)
              && store.scheduled == old(store.scheduled))
            && (valid && !commit ==> r == NotSaved)
            && (valid && commit ==>
              var id := |old(store.contests)|;
              && r == SavedAs(id)
              && store.contests == old(store.contests) + [Contest(Upper(Strip(word)), startedBy, Submissions, None, None, now)]
              && store.notices == old(store.notices) + [ContestStarted(id)]
              && store.scheduled == old(store.scheduled)
                                   + [Callback(id, now + SubmissionsLength + 1),
                                      Callback(id, now + SubmissionsLength + VotingLength + 1)])
    ensures store.Valid()
    ensures store.submissions == old(store.submissions)
  {
    var valid := ContestFormErrors(store.contests, word, startedBy) == [];
    if !valid {
      // the form's own save refuses data that did not validate
      return InvalidData;
    }
    if commit {
      ContestSaveBinds();
      var id := store.AddContest(Strip(word), startedBy, now);
      assert store.contests == old(store.contests) + [store.contests[id]];
      r := SavedAs(id);
    } else {
      r := NotSaved;
    }
  }

  // ---------------------------------------------------------------------------
  // SubmissionForm
  // ---------------------------------------------------------------------------

  /** `SubmissionForm.clean_submitted_by`: refused exactly when likes are owed, saying how many. */
  function CleanSubmittedBy(subs: seq<Submission>, u: UserId): (r: Result<UserId, FormError>)
    ensures r.Failure? <==> LikesNeeded(subs, u) > 0
    ensures r.Success? ==> r.value == u
    ensures r.Failure? ==> r.error == LikesOwed(LikesNeeded(subs, u) as nat)
  {
    var needed := SubmissionsBy(subs, u) / 2 - LikesGiven(subs, u);
    if needed > 0 then Failure(LikesOwed(needed)) else Success(u)
  }

  /**
   * `SubmissionForm.clean_contest`: refresh the contest's phase, then refuse it
   * unless it still takes submissions, which is exactly when it was taking them
   * and its window has not passed.
   */
  method CleanContest(store: Store, id: ContestId, now: int) returns (r: Result<ContestId, FormError>)
    requires store.Valid() && id < |store.contests|
    modifies store
    ensures store.Valid()
    ensures store.contests == old(store.contests)[id := Refreshed(old(store.contests)[id], id, store.submissions, now)]
    ensures store.notices == old(store.notices) + RefreshNotices(old(store.contests)[id], id, store.submissions, now)
    ensures store.submissions == old(store.submissions) && store.scheduled == old(store.scheduled)
    ensures r.Success? <==> old(store.contests)[id].status == Submissions && now <= SubmissionsEndTime(old(store.contests)[id])
    ensures r.Success? ==> r.value == id
    ensures r.Failure? ==> r.error == ContestNoLongerOpen
  {
    StillOpenAfterRefresh(store.contests[id], id, store.submissions, now);
    store.CheckIfTooOld(id, now);
    if store.contests[id].status != Submissions {
      return Failure(ContestNoLongerOpen);
    }
    return Success(id);
  }

  /**
   * A `SubmissionForm` that validates at time `now`: the clue and the explanation
   * are not blank, the contest is a stored one that still takes submissions, and
   * the user owes no likes.
   */
  predicate SubmissionFormValid(contests: seq<Contest>, subs: seq<Submission>, clue: string, explanation: string,
                                contest: Option<int>, user: UserId, now: int) {
    && !AllPythonSpace(clue) && !AllPythonSpace(explanation)
    && ValidContestId(contest, |contests|)
    && contests[contest.value].status == Submissions && now <= SubmissionsEndTime(contests[contest.value])
    && LikesNeeded(subs, user) <= 0
  }

  /** The contests after validation: `clean_contest` refreshes the one the form names, if it is stored. */
  function ValidatedContests(contests: seq<Contest>, subs: seq<Submission>, contest: Option<int>, now: int): seq<Contest> {
    if ValidContestId(contest, |contests|) then
      contests[contest.value := Refreshed(contests[contest.value], contest.value, subs, now)]
    else contests
  }

  /** The notices that refresh posts. */
  function ValidationNotices(contests: seq<Contest>, subs: seq<Submission>, contest: Option<int>, now: int): seq<Notice> {
    if ValidContestId(contest, |contests|) then RefreshNotices(contests[contest.value], contest.value, subs, now)
    else []
  }

  /** Validating a form that is valid refreshes nothing: its contest is in its submission window. */
  lemma ValidFormRefreshesNothing(contests: seq<Contest>, subs: seq<Submission>, clue: string, explanation: string,
                                  contest: Option<int>, user: UserId, now: int)
    requires SubmissionFormValid(contests, subs, clue, explanation, contest, user, now)
    ensures ValidatedContests(contests, subs, contest, now) == contests
    ensures ValidationNotices(contests, subs, contest, now) == []
  {
    var id := contest.value;
    assert Refreshed(contests[id], id, subs, now) == contests[id];
    assert contests[id := contests[id]] == contests;
  }

  /** The errors of the `contest` field: it is required, must name a stored contest, and that contest must still be open. */
  function ContestFieldErrors(contests: seq<Contest>, contest: Option<int>, now: int): (errors: seq<FormError>)
    ensures forall e :: e in errors ==> e == ContestMissing || e == NoSuchContest || e == ContestNoLongerOpen
    ensures ContestMissing in errors <==> contest.None?
    ensures NoSuchContest in errors <==> contest.Some? && !ValidContestId(contest, |contests|)
    ensures ContestNoLongerOpen in errors <==>
              ValidContestId(contest, |contests|)
              && !(contests[contest.value].status == Submissions && now <= SubmissionsEndTime(contests[contest.value]))
    ensures errors == [] <==>
              ValidContestId(contest, |contests|)
              && contests[contest.value].status == Submissions && now <= SubmissionsEndTime(contests[contest.value])
  {
    if contest.None? then [ContestMissing]
    else if !ValidContestId(contest, |contests|) then [NoSuchContest]
    else if contests[contest.value].status == Submissions && now <= SubmissionsEndTime(contests[contest.value]) then []
    else [ContestNoLongerOpen]
  }

  /** The error of the `submitted_by` field. */
  function SubmitterErrors(subs: seq<Submission>, user: UserId): (errors: seq<FormError>)
    ensures forall e :: e in errors ==> e.LikesOwed?
    ensures errors == [] <==> LikesNeeded(subs, user) <= 0
    ensures LikesNeeded(subs, user) > 0 ==> errors == [LikesOwed(LikesNeeded(subs, user) as nat)]
  {
    match CleanSubmittedBy(subs, user) case Success(_) => [] case Failure(e) => [e]
  }

  /** The errors of the two required text fields, which strip their surrounding white space first. */
  function RequiredErrors(clue: string, explanation: string): (errors: seq<FormError>)
    ensures ClueMissing in errors <==> AllPythonSpace(clue)
    ensures ExplanationMissing in errors <==> AllPythonSpace(explanation)
    ensures forall e :: e in errors ==> e == ClueMissing || e == ExplanationMissing
  {
    (if Strip(clue) == [] then [ClueMissing] else []) + (if Strip(explanation) == [] then [ExplanationMissing] else [])
  }

  /**
   * The errors of a `SubmissionForm`, field by field in the form's order, judged on
   * the contests as they stood before `clean_contest` refreshed them. The form is
   * free of errors exactly when it is valid; `SubmissionFormErrorsReport` says
   * which error each failed check reports.
   */
  function SubmissionFormErrors(contests: seq<Contest>, subs: seq<Submission>, clue: string, explanation: string,
                                contest: Option<int>, user: UserId, now: int): (errors: seq<FormError>)
    ensures errors == [] <==> SubmissionFormValid(contests, subs, clue, explanation, contest, user, now)
  {
    RequiredErrors(clue, explanation) + ContestFieldErrors(contests, contest, now) + SubmitterErrors(subs, user)
  }

  /** Each check of a `SubmissionForm` reports its own error exactly when it fails. */
  lemma SubmissionFormErrorsReport(contests: seq<Contest>, subs: seq<Submission>, clue: string, explanation: string,
                                   contest: Option<int>, user: UserId, now: int)
    ensures var errors := SubmissionFormErrors(contests, subs, clue, explanation, contest, user, now);
            && (ClueMissing in errors <==> AllPythonSpace(clue))
            && (ExplanationMissing in errors <==> AllPythonSpace(explanation))
            && (ContestMissing in errors <==> contest.None?)
            && (NoSuchContest in errors <==> contest.Some? && !ValidContestId(contest, |contests|))
  {
    var field := ContestFieldErrors(contests, contest, now);
    var submitter := SubmitterErrors(subs, user);
    assert ClueMissing !in field + submitter && ExplanationMissing !in field + submitter;
    assert ContestMissing !in RequiredErrors(clue, explanation) + submitter;
    assert NoSuchContest !in RequiredErrors(clue, explanation) + submitter;
  }

  /** A contest that no longer takes submissions, and likes owed, are reported with their own errors. */
  lemma SubmissionFormErrorsReportRefusals(contests: seq<Contest>, subs: seq<Submission>, clue: string,
                                           explanation: string, contest: Option<int>, user: UserId, now: int)
    ensures var errors := SubmissionFormErrors(contests, subs, clue, explanation, contest, user, now);
            && (ContestNoLongerOpen in errors <==>
                  ValidContestId(contest, |contests|)
                  && !(contests[contest.value].status == Submissions
                       && now <= SubmissionsEndTime(contests[contest.value])))
            && ((exists n :: LikesOwed(n) in errors) <==> LikesNeeded(subs, user) > 0)
            && (LikesNeeded(subs, user) > 0 ==> LikesOwed(LikesNeeded(subs, user) as nat) in errors)
  {
    var required := RequiredErrors(clue, explanation);
    var field := ContestFieldErrors(contests, contest, now);
    var submitter := SubmitterErrors(subs, user);
    var errors := required + field + submitter;
    assert ContestNoLongerOpen in errors <==> ContestNoLongerOpen in field by {
      assert ContestNoLongerOpen !in required + submitter;
    }
    assert (exists n :: LikesOwed(n) in errors) <==> submitter != [] by {
      assert forall n :: LikesOwed(n) !in required + field;
      if submitter != [] { assert submitter[0] in errors; }
    }
  }

  /**
   * `SubmissionForm` validation: `full_clean` reports `SubmissionFormErrors`, and
   * `clean_contest` has refreshed the contest the form names, if it is stored.
   */
  method ValidateSubmissionForm(store: Store, clue: string, explanation: string, contest: Option<int>,
                                user: UserId, now: int) returns (errors: seq<FormError>)
    requires store.Valid()
    modifies store
    ensures store.Valid()
    ensures store.submissions == old(store.submissions) && store.scheduled == old(store.scheduled)
    ensures store.contests == ValidatedContests(old(store.contests), store.submissions, contest, now)
    ensures store.notices == old(store.notices) + ValidationNotices(old(store.contests), store.submissions, contest, now)
    ensures errors == SubmissionFormErrors(old(store.contests), store.submissions, clue, explanation, contest, user, now)
  {
    var contestErrors := CleanContestField(store, contest, now);
    var owed := CleanSubmittedBy(store.submissions, user);
    var userErrors := if owed.Failure? then [owed.error] else [];
    errors := RequiredErrors(clue, explanation) + contestErrors + userErrors;
  }

  /** The `contest` field: given, a stored contest, and still open after `clean_contest`. */
  method CleanContestField(store: Store, contest: Option<int>, now: int) returns (errors: seq<FormError>)
    requires store.Valid()
    modifies store
    ensures store.Valid()
    ensures store.submissions == old(store.submissions) && store.scheduled == old(store.scheduled)
    ensures store.contests == ValidatedContests(old(store.contests), store.submissions, contest, now)
    ensures store.notices == old(store.notices) + ValidationNotices(old(store.contests), store.submissions, contest, now)
    ensures errors == ContestFieldErrors(old(store.contests), contest, now)
  {
    if contest.None? {
      return [ContestMissing];
    }
    if !ValidContestId(contest, |store.contests|) {
      return [NoSuchContest];
    }
    var checked := CleanContest(store, contest.value, now);
    errors := if checked.Failure? then [checked.error] else [];
  }

  /**
   * `SubmissionForm.save` as written: it validates the form; with errors it
   * raises; with `commit` it calls `SubmissionManager.add` with the cleaned
   * fields as keywords, a call that does not bind and so raises before anything
   * is stored; without `commit` it stores nothing. Either way the store keeps
   * what validation left in it.
   */
  method SaveSubmissionForm(store: Store, clue: string, explanation: string, contest: Option<int>,
                            user: UserId, commit: bool, now: int) returns (r: Saved)
    requires store.Valid()
    modifies store
    ensures store.Valid()
    ensures store.submissions == old(store.submissions) && store.scheduled == old(store.scheduled)
    ensures store.contests == ValidatedContests(old(store.contests), old(store.submissions), contest, now)
    ensures store.notices == old(store.notices) + ValidationNotices(old(store.contests), old(store.submissions), contest, now)
    ensures var valid := SubmissionFormValid(old(store.contests), old(store.submissions), clue, explanation, contest, user, now);
            && (!valid ==> r == InvalidData)
            && (valid && !commit ==> r == NotSaved)
            && (r == CallDoesNotBind <==>
                  valid && commit && !KeywordsBind(SubmissionAddParameters, SubmissionFormFields))
  {
    var errors := ValidateSubmissionForm(store, clue, explanation, contest, user, now);
    if errors != [] {
      // the form's own save refuses data that did not validate
      return InvalidData;
    }
    if !commit {
      return NotSaved;
    }
    // `add(**cleaned_data)` receives `clue`, `explanation`, `contest` and `submitted_by`
    SubmissionSaveDoesNotBind();
    r := CallDoesNotBind;
  }

  /** The data `add(data, user)` expects, built from the cleaned (stripped) fields. */
  function AddArguments(clue: string, explanation: string, id: ContestId): (data: SubmissionData)
    ensures data.contestId == Some(id)
    ensures data.clue == [] <==> AllPythonSpace(clue)
    ensures data.explanation == [] <==> AllPythonSpace(explanation)
  {
    SubmissionData(Strip(clue), Strip(explanation), Some(id))
  }

  /**
   * `SubmissionForm.save` with the call the manager expects, `add(data, user)`:
   * it validates the form; with errors it stores nothing; with `commit` a valid
   * form has its submission created from the stripped clue and explanation, with
   * no refresh left to do; without `commit` it stores nothing.
   */
  method SaveSubmissionFormCorrected(store: Store, clue: string, explanation: string, contest: Option<int>,
                                     user: UserId, commit: bool, now: int)
    returns (r: Result<AddOutcome, Saved>)
    requires store.Valid()
    modifies store
    ensures store.Valid()
    ensures store.scheduled == old(store.scheduled)
    ensures var valid := SubmissionFormValid(old(store.contests), old(store.submissions), clue, explanation, contest, user, now);
            && (!(valid && commit) ==>
                  && store.submissions == old(store.submissions)
                  && store.contests == ValidatedContests(old(store.contests), old(store.submissions), contest, now)
                  && store.notices == old(store.notices)
                                      + ValidationNotices(old(store.contests), old(store.submissions), contest, now))
            && (!valid ==> r == Failure(InvalidData))
            && (valid && !commit ==> r == Failure(NotSaved))
            && (valid && commit ==>
                  && r == Success(Created)
                  && store.submissions
                     == old(store.submissions) + [Submission(Strip(clue), Strip(explanation), contest.value, user, {}, now)]
                  && store.contests == old(store.contests)
                  && store.notices == old(store.notices) + [SubmissionPosted(|old(store.submissions)|)])
  {
    var errors := ValidateSubmissionForm(store, clue, explanation, contest, user, now);
    if errors != [] {
      return Failure(InvalidData);
    }
    if !commit {
      return Failure(NotSaved);
    }
    var id := contest.value;
    ValidFormRefreshesNothing(old(store.contests), store.submissions, clue, explanation, contest, user, now);
    var data := AddArguments(clue, explanation, id);
    AdmittedIffAllChecksPass(data, LikesNeeded(store.submissions, user), true);
    assert Refreshed(store.contests[id], id, store.submissions, now) == store.contests[id];
    assert store.contests[id := store.contests[id]] == store.contests;
    var outcome := store.AddSubmission(data, Some(user), now);
    r := Success(outcome);
  }
}
