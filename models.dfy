/**
 * The contest domain of the cryptic-clue site: contests that move through the
 * phases submissions, voting and closed; the submissions made to them; the
 * winner chosen when voting ends; and the admission rules for a new submission.
 *
 * The database is a `Store` whose contests and submissions are sequences indexed
 * by their ids. Time is a whole number of seconds passed in as `now`. What the
 * site posts to its chat channel is recorded as `notices`, and every
 * status-check callback handed to the task queue as `scheduled`.
 */
module Models {
  import opened Wrappers
  import opened Text

  /** Two days and two minutes, in seconds: the length of each phase. */
  const SubmissionsLength: int := 2 * 24 * 60 * 60 + 2 * 60
  const VotingLength: int := 2 * 24 * 60 * 60 + 2 * 60

  type UserId = nat
  type ContestId = nat
  type SubmissionId = nat

  /** The `status` column: "S", "V" or "C". */
  datatype Status = Submissions | Voting | Closed

  /** The order in which a contest passes through the phases. */
  function Rank(s: Status): nat {
    match s
    case Submissions => 0
    case Voting => 1
    case Closed => 2
  }

  datatype Contest = Contest(
    word: string,
    startedBy: UserId,
    status: Status,
    winningEntry: Option<SubmissionId>,
    winningUser: Option<UserId>,
    createdAt: int)

  function SubmissionsEndTime(c: Contest): int { c.createdAt + SubmissionsLength }

  function VotingEndTime(c: Contest): int { c.createdAt + SubmissionsLength + VotingLength }

  /** Each phase lasts two days and two minutes: submissions from creation, then voting. */
  lemma PhaseWindows(c: Contest)
    ensures SubmissionsEndTime(c) == c.createdAt + 172920
    ensures VotingEndTime(c) == SubmissionsEndTime(c) + 172920
  {}

  datatype Submission = Submission(
    clue: string,
    explanation: string,
    contest: ContestId,
    submittedBy: UserId,
    likers: set<UserId>,
    createdAt: int)

  /** `sort_order`: fewest negated likes first, then earliest created. */
  function SortOrder(s: Submission): (int, int) { (-|s.likers|, s.createdAt) }

  /** `a` sorts strictly before `b` in the lexicographic order of sort keys. */
  predicate KeyBefore(a: (int, int), b: (int, int)) {
    a.0 < b.0 || (a.0 == b.0 && a.1 < b.1)
  }

  /** An entry sorts before another exactly when it has more likes, or as many and was created earlier. */
  lemma SortOrderRanks(a: Submission, b: Submission)
    ensures KeyBefore(SortOrder(a), SortOrder(b)) <==>
              |a.likers| > |b.likers| || (|a.likers| == |b.likers| && a.createdAt < b.createdAt)
  {}

  // ---------------------------------------------------------------------------
  // The winner of a contest
  // ---------------------------------------------------------------------------

  /**
   * The first submission of contest `c` in the order of `SortOrder` (most likes,
   * then earliest created); among submissions with equal keys, the first stored.
   */
  function Winner(subs: seq<Submission>, c: ContestId): (w: Option<SubmissionId>)
    ensures w.None? <==> forall i :: 0 <= i < |subs| ==> subs[i].contest != c
    ensures w.Some? ==> w.value < |subs| && subs[w.value].contest == c
    ensures w.Some? ==> forall i :: 0 <= i < |subs| && subs[i].contest == c ==>
              !KeyBefore(SortOrder(subs[i]), SortOrder(subs[w.value]))
              && (SortOrder(subs[i]) == SortOrder(subs[w.value]) ==> w.value <= i)
    decreases |subs|
  {
    if subs == [] then None
    else
      var last := |subs| - 1;
      var w := Winner(subs[..last], c);
      if subs[last].contest != c then w
      else if w.None? || KeyBefore(SortOrder(subs[last]), SortOrder(subs[w.value])) then Some(last)
      else w
  }

  /** The winner has at least as many likes as every other entry, and ties go to the earliest created. */
  lemma WinnerHasMostLikes(subs: seq<Submission>, c: ContestId, i: nat)
    requires Winner(subs, c).Some? && i < |subs| && subs[i].contest == c
    ensures |subs[i].likers| <= |subs[Winner(subs, c).value].likers|
    ensures |subs[i].likers| == |subs[Winner(subs, c).value].likers| ==>
              subs[Winner(subs, c).value].createdAt <= subs[i].createdAt
  {}

  // ---------------------------------------------------------------------------
  // The phase changes, on one contest record
  // ---------------------------------------------------------------------------

  /** `declare_winner`'s change to the record: a winner is set only once, and only when there are entries. */
  function WithWinner(c: Contest, id: ContestId, subs: seq<Submission>): Contest {
    var w := Winner(subs, id);
    if w.Some? && c.winningEntry.None? then
      c.(winningEntry := w, winningUser := Some(subs[w.value].submittedBy))
    else c
  }
  /** Five entries with 1, 0, 2, 2 and 1 likes, made in that order: the third wins. */
  lemma WinnerOfFiveEntries(subs: seq<Submission>, c: ContestId)
    requires |subs| == 5
    requires forall i :: 0 <= i < 5 ==> subs[i].contest == c && subs[i].createdAt == i
    requires |subs[0].likers| == 1 && |subs[1].likers| == 0 && |subs[2].likers| == 2
    requires |subs[3].likers| == 2 && |subs[4].likers| == 1
    ensures Winner(subs, c) == Some(2)
  {
    var w := Winner(subs, c);
    assert subs[2].contest == c;
    var k := w.value;
    assert !KeyBefore(SortOrder(subs[2]), SortOrder(subs[k]));
    assert KeyBefore(SortOrder(subs[2]), SortOrder(subs[3]));
  }

  /** `deactivate`: declare the winner, then close. */
  function Deactivated(c: Contest, id: ContestId, subs: seq<Submission>): Contest {
    WithWinner(c, id, subs).(status := Closed)
  }

  /** `switch_to_voting`: only a contest taking submissions moves on. */
  function SwitchedToVoting(c: Contest): Contest {
    if c.status == Submissions then c.(status := Voting) else c
  }

  /** `check_if_too_old` on record `c` (contest `id`) at time `now`. */
  function Refreshed(c: Contest, id: ContestId, subs: seq<Submission>, now: int): (r: Contest)
    ensures Rank(r.status) >= Rank(c.status)
    ensures c.status == Closed ==> r == c
    ensures c.status != Closed && now > VotingEndTime(c) ==> r.status == Closed
    ensures c.status == Submissions && SubmissionsEndTime(c) < now <= VotingEndTime(c) ==> r.status == Voting
    ensures c.status != Closed && now <= SubmissionsEndTime(c) ==> r == c
    ensures c.status == Voting && now <= VotingEndTime(c) ==> r == c
    ensures r.word == c.word && r.startedBy == c.startedBy && r.createdAt == c.createdAt
  {
    if c.status == Closed then c
    else if now > VotingEndTime(c) then Deactivated(c, id, subs)
    else if c.status == Submissions && now > SubmissionsEndTime(c) then SwitchedToVoting(c)
    else c
  }

  datatype Notice =
    | ContestStarted(contest: ContestId)
    | VotingOpened(contest: ContestId)
    | WinnerAnnounced(contest: ContestId, entry: SubmissionId)
    | SubmissionPosted(submission: SubmissionId)

  /** A status-check task for contest `contest`, due at `eta`. */
  datatype Callback = Callback(contest: ContestId, eta: int)

  function WinnerNotices(c: Contest, id: ContestId, subs: seq<Submission>): seq<Notice> {
    var w := Winner(subs, id);
    if w.Some? && c.winningEntry.None? then [WinnerAnnounced(id, w.value)] else []
  }

  function VotingNotices(c: Contest, id: ContestId): seq<Notice> {
    if c.status == Submissions then [VotingOpened(id)] else []
  }

  /** What `check_if_too_old` posts. */
  function RefreshNotices(c: Contest, id: ContestId, subs: seq<Submission>, now: int): seq<Notice> {
    if c.status == Closed then []
    else if now > VotingEndTime(c) then WinnerNotices(c, id, subs)
    else if c.status == Submissions && now > SubmissionsEndTime(c) then VotingNotices(c, id)
    else []
  }

  /** A contest can still take submissions after the refresh exactly when it is in that phase and its window has not passed. */
  lemma StillOpenAfterRefresh(c: Contest, id: ContestId, subs: seq<Submission>, now: int)
    ensures Refreshed(c, id, subs, now).status == Submissions <==>
              c.status == Submissions && now <= SubmissionsEndTime(c)
  {}

  /** The winner is declared at most once: later calls, even after new entries, keep it and post nothing. */
  lemma WinnerDeclaredOnce(c: Contest, id: ContestId, subs: seq<Submission>, later: seq<Submission>)
    ensures Winner(subs, id).Some? ==> WithWinner(c, id, subs).winningEntry.Some?
    ensures var d := WithWinner(c, id, subs);
            d.winningEntry.Some? ==> WithWinner(d, id, later) == d && WinnerNotices(d, id, later) == []
  {}

  /** With no entries there is no winner and no notice, yet `deactivate` still closes the contest. */
  lemma DeactivateWithoutEntries(c: Contest, id: ContestId, subs: seq<Submission>)
    requires forall i :: 0 <= i < |subs| ==> subs[i].contest != id
    ensures Deactivated(c, id, subs) == c.(status := Closed)
    ensures WinnerNotices(c, id, subs) == []
  {}

  /** A refresh posts at most one notice, and refreshing again at the same time changes and posts nothing. */
  lemma RefreshSettles(c: Contest, id: ContestId, subs: seq<Submission>, now: int)
    ensures |RefreshNotices(c, id, subs, now)| <= 1
    ensures var r := Refreshed(c, id, subs, now);
            Refreshed(r, id, subs, now) == r && RefreshNotices(r, id, subs, now) == []
  {}

  /** The two callbacks a new contest schedules move it to voting and then close it. */
  lemma ScheduledChecksAdvance(c: Contest, id: ContestId, subs: seq<Submission>)
    requires c.status == Submissions
    ensures var v := Refreshed(c, id, subs, SubmissionsEndTime(c) + 1);
            v.status == Voting && Refreshed(v, id, subs, VotingEndTime(c) + 1).status == Closed
  {
    var v := Refreshed(c, id, subs, SubmissionsEndTime(c) + 1);
    assert VotingEndTime(v) == VotingEndTime(c);
  }

  // ---------------------------------------------------------------------------
  // Admission of a new submission
  // ---------------------------------------------------------------------------

  /** How many submissions user `u` has made. */
  function SubmissionsBy(subs: seq<Submission>, u: UserId): nat
    decreases |subs|
  {
    if subs == [] then 0
    else SubmissionsBy(subs[..|subs| - 1], u) + (if subs[|subs| - 1].submittedBy == u then 1 else 0)
  }

  /** How many submissions user `u` has liked (`clues_liked`). */
  function LikesGiven(subs: seq<Submission>, u: UserId): nat
    decreases |subs|
  {
    if subs == [] then 0
    else LikesGiven(subs[..|subs| - 1], u) + (if u in subs[|subs| - 1].likers then 1 else 0)
  }

  /** One like owed for every two submissions, minus the likes already given. */
  function LikesNeeded(subs: seq<Submission>, u: UserId): int {
    SubmissionsBy(subs, u) / 2 - LikesGiven(subs, u)
  }

  /** A user with fewer than two submissions never owes a like. */
  lemma NewUsersOweNoLikes(subs: seq<Submission>, u: UserId)
    requires SubmissionsBy(subs, u) <= 1
    ensures LikesNeeded(subs, u) <= 0
  {}

  /** Likes are owed exactly when the user has submitted at least twice one more than the likes given. */
  lemma LikesOwedIff(subs: seq<Submission>, u: UserId)
    ensures LikesNeeded(subs, u) > 0 <==> SubmissionsBy(subs, u) >= 2 * (LikesGiven(subs, u) + 1)
  {}

  /** A new, unliked submission of the user's raises the likes owed by at most one. */
  lemma SubmittingOwesAtMostOneMore(subs: seq<Submission>, u: UserId, s: Submission)
    requires s.submittedBy == u && s.likers == {}
    ensures LikesNeeded(subs, u) <= LikesNeeded(subs + [s], u) <= LikesNeeded(subs, u) + 1
  {
    assert (subs + [s])[..|subs|] == subs;
  }

  /** Liking an entry the user had not liked lowers the likes owed by exactly one. */
  lemma LikingPaysOneOwed(subs: seq<Submission>, k: nat, u: UserId)
    requires k < |subs| && u !in subs[k].likers
    ensures LikesNeeded(subs[k := subs[k].(likers := subs[k].likers + {u})], u) == LikesNeeded(subs, u) - 1
  {
    LikerUpdateCounts(subs, k, u, subs[k].likers + {u});
  }

  /** Changing the likers of one entry keeps every submission count, and changes the likes given only there. */
  lemma {:induction false} LikerUpdateCounts(subs: seq<Submission>, k: nat, u: UserId, likers: set<UserId>)
    requires k < |subs|
    ensures var changed := subs[k := subs[k].(likers := likers)];
            && SubmissionsBy(changed, u) == SubmissionsBy(subs, u)
            && LikesGiven(changed, u) + (if u in subs[k].likers then 1 else 0)
               == LikesGiven(subs, u) + (if u in likers then 1 else 0)
    decreases |subs|
  {
    var changed := subs[k := subs[k].(likers := likers)];
    var last := |subs| - 1;
    assert changed[..last] == if k == last then subs[..last] else subs[..last][k := subs[k].(likers := likers)];
    if k < last {
      LikerUpdateCounts(subs[..last], k, u, likers);
    }
  }

  /** The errors `SubmissionManager.add` can report, in the order it checks them. */
  datatype AdmissionError =
    | ClueRequired
    | ExplanationRequired
    | NoContestSpecified
    | NotLoggedIn
    | MoreLikesNeeded(n: nat)
    | ContestClosed

  function ErrorRank(e: AdmissionError): nat {
    match e
    case ClueRequired => 0
    case ExplanationRequired => 1
    case NoContestSpecified => 2
    case NotLoggedIn => 3
    case MoreLikesNeeded(_) => 4
    case ContestClosed => 5
  }

  /** A user whose submissions are all their own and unliked by them has that many submissions and no likes given. */
  lemma {:induction false} CountsOfOwnEntries(subs: seq<Submission>, u: UserId)
    requires forall i :: 0 <= i < |subs| ==> subs[i].submittedBy == u && u !in subs[i].likers
    ensures SubmissionsBy(subs, u) == |subs| && LikesGiven(subs, u) == 0
    decreases |subs|
  {
    if subs != [] {
      CountsOfOwnEntries(subs[..|subs| - 1], u);
    }
  }

  /** Django's `pluralize`: "s" unless the count is one. */
  function Plural(n: nat): string { if n == 1 then "" else "s" }

  /** The text of the "like more clues" error. */
  function LikesMessage(n: nat): (m: string)
    ensures |m| > 21 && m[..21] == "Please like at least "
    ensures m[|m| - 1] == 's' <==> n != 1
  {
    "Please like at least " + NatToString(n) + " more clue" + Plural(n)
  }

  function Message(e: AdmissionError): string {
    match e
    case ClueRequired => "Clue is required"
    case ExplanationRequired => "Explanation is required"
    case NoContestSpecified => "No contest was specified (somehow)"
    case NotLoggedIn => "Must be logged in to submit a clue (this specific error shouldn't trigger)"
    case MoreLikesNeeded(n) => LikesMessage(n)
    case ContestClosed => "Sorry, this contest has closed"
  }

  /** A user with five submissions who has liked none owes two likes, and is told so. */
  lemma FiveEntriesOweTwoLikes(subs: seq<Submission>, u: UserId)
    requires |subs| == 5
    requires forall i :: 0 <= i < |subs| ==> subs[i].submittedBy == u && u !in subs[i].likers
    ensures LikesNeeded(subs, u) == 2
    ensures Message(MoreLikesNeeded(2)) == "Please like at least 2 more clues"
  {
    CountsOfOwnEntries(subs, u);
    assert NatToString(2) == "2";
  }

  /** The like error is singular for one clue. */
  lemma OneLikeIsSingular()
    ensures Message(MoreLikesNeeded(1)) == "Please like at least 1 more clue"
  {
    assert NatToString(1) == "1";
  }

  /** The posted fields; a missing or empty contest id is `None`. */
  datatype SubmissionData = SubmissionData(clue: string, explanation: string, contestId: Option<int>)

  /**
   * The errors of a submission that got as far as the `return`: one per failed
   * check, in the order of the checks.
   */
  function AdmissionErrors(data: SubmissionData, needed: int, stillOpen: bool): seq<AdmissionError> {
    Flag(data.clue == [], ClueRequired)
    + Flag(data.explanation == [], ExplanationRequired)
    + Flag(needed > 0, MoreLikesNeeded(if needed > 0 then needed as nat else 0))
    + Flag(!stillOpen, ContestClosed)
  }

  /** The one-error list of a check that failed, or the empty list. */
  function Flag(failed: bool, e: AdmissionError): seq<AdmissionError> {
    if failed then [e] else []
  }

  /** Each check that fails contributes its error, and no other error appears. */
  lemma AdmissionErrorsReportFailedChecks(data: SubmissionData, needed: int, stillOpen: bool)
    ensures var errs := AdmissionErrors(data, needed, stillOpen);
            && (ClueRequired in errs <==> data.clue == [])
            && (ExplanationRequired in errs <==> data.explanation == [])
            && (ContestClosed in errs <==> !stillOpen)
            && (needed > 0 ==> MoreLikesNeeded(needed as nat) in errs)
            && NoContestSpecified !in errs && NotLoggedIn !in errs
  {
    var likes := MoreLikesNeeded(if needed > 0 then needed as nat else 0);
    var f1, f2 := Flag(data.clue == [], ClueRequired), Flag(data.explanation == [], ExplanationRequired);
    var f3, f4 := Flag(needed > 0, likes), Flag(!stillOpen, ContestClosed);
    forall x
      ensures x in AdmissionErrors(data, needed, stillOpen) <==>
                (data.clue == [] && x == ClueRequired) || (data.explanation == [] && x == ExplanationRequired)
                || (needed > 0 && x == likes) || (!stillOpen && x == ContestClosed)
    {
      assert AdmissionErrors(data, needed, stillOpen) == f1 + f2 + f3 + f4;
      assert x in f1 + f2 + f3 + f4 <==> x in f1 || x in f2 || x in f3 || x in f4;
    }
  }

  /** Every like error carries the number of likes needed, and there is one only when likes are owed. */
  lemma AdmissionErrorsLikesCount(data: SubmissionData, needed: int, stillOpen: bool)
    ensures var errs := AdmissionErrors(data, needed, stillOpen);
            forall i :: 0 <= i < |errs| && errs[i].MoreLikesNeeded? ==> needed > 0 && errs[i].n == needed
  {}

  /** The errors come in the order the checks are made. */
  lemma AdmissionErrorsInCheckOrder(data: SubmissionData, needed: int, stillOpen: bool)
    ensures var errs := AdmissionErrors(data, needed, stillOpen);
            forall i, j :: 0 <= i < j < |errs| ==> ErrorRank(errs[i]) < ErrorRank(errs[j])
  {}

  /** A submission is admitted exactly when every check passes. */
  lemma AdmittedIffAllChecksPass(data: SubmissionData, needed: int, stillOpen: bool)
    ensures AdmissionErrors(data, needed, stillOpen) == [] <==>
              data.clue != [] && data.explanation != [] && needed <= 0 && stillOpen
  {}

  /** What `SubmissionManager.add` gives back: `status` true, `status` false with the errors, or an exception. */
  datatype AddOutcome = Created | Rejected(errors: seq<AdmissionError>) | Raised

  // ---------------------------------------------------------------------------
  // The database
  // ---------------------------------------------------------------------------

  /** The winner fields of contest `k` point at one of its own entries, and name that entry's author. */
  predicate WinnerConsistent(c: Contest, k: ContestId, subs: seq<Submission>) {
    match c.winningEntry
    case None => c.winningUser.None?
    case Some(w) => w < |subs| && subs[w].contest == k && c.winningUser == Some(subs[w].submittedBy)
  }

  class Store {
    var contests: seq<Contest>
    var submissions: seq<Submission>
    var notices: seq<Notice>
    var scheduled: seq<Callback>

    predicate Valid()
      reads this
    {
      && (forall i :: 0 <= i < |submissions| ==> submissions[i].contest < |contests|)
      && (forall k :: 0 <= k < |contests| ==> WinnerConsistent(contests[k], k, submissions))
    }

    constructor ()
      ensures Valid()
      ensures contests == [] && submissions == [] && notices == [] && scheduled == []
    {
      contests, submissions, notices, scheduled := [], [], [], [];
    }

    /** `ContestManager.add`. */
    method AddContest(word: string, startedBy: UserId, now: int) returns (id: ContestId)
      requires Valid()
      modifies this
      ensures Valid()
      ensures id == |old(contests)| && |contests| == id + 1 && contests[..id] == old(contests)
      ensures contests[id] == Contest(Upper(word), startedBy, Submissions, None, None, now)
      ensures submissions == old(submissions)
      ensures notices == old(notices) + [ContestStarted(id)]
      ensures scheduled == old(scheduled)
                           + [Callback(id, now + SubmissionsLength + 1),
                              Callback(id, now + SubmissionsLength + VotingLength + 1)]
    {
      var c := Contest(Upper(word), startedBy, Submissions, None, None, now);
      id := |contests|;
      contests := contests + [c];
      notices := notices + [ContestStarted(id)];
      scheduled := scheduled + [Callback(id, SubmissionsEndTime(c) + 1)];
      scheduled := scheduled + [Callback(id, VotingEndTime(c) + 1)];
    }

    /** `declare_winner`. */
    method DeclareWinner(id: ContestId)
      requires Valid() && id < |contests|
      modifies this
      ensures Valid()
      ensures contests == old(contests)[id := WithWinner(old(contests)[id], id, submissions)]
      ensures notices == old(notices) + WinnerNotices(old(contests)[id], id, submissions)
      ensures submissions == old(submissions) && scheduled == old(scheduled)
    {
      var sendMessage := false;
      var best := Winner(submissions, id);
      if best.Some? {
        if contests[id].winningEntry.None? {
          var entry := best.value;
          contests := contests[id := contests[id].(winningEntry := Some(entry),
                                                   winningUser := Some(submissions[entry].submittedBy))];
          sendMessage := true;
        }
      }
      if sendMessage {
        notices := notices + [WinnerAnnounced(id, best.value)];
      }
    }

    /** `deactivate`. */
    method Deactivate(id: ContestId)
      requires Valid() && id < |contests|
      modifies this
      ensures Valid()
      ensures contests == old(contests)[id := Deactivated(old(contests)[id], id, submissions)]
      ensures notices == old(notices) + WinnerNotices(old(contests)[id], id, submissions)
      ensures submissions == old(submissions) && scheduled == old(scheduled)
    {
      DeclareWinner(id);
      contests := contests[id := contests[id].(status := Closed)];
    }

    /** `switch_to_voting`. */
    method SwitchToVoting(id: ContestId)
      requires Valid() && id < |contests|
      modifies this
      ensures Valid()
      ensures contests == old(contests)[id := SwitchedToVoting(old(contests)[id])]
      ensures notices == old(notices) + VotingNotices(old(contests)[id], id)
      ensures submissions == old(submissions) && scheduled == old(scheduled)
    {
      var sendMessage := false;
      if contests[id].status == Submissions {
        contests := contests[id := contests[id].(status := Voting)];
        sendMessage := true;
      }
      if sendMessage {
        notices := notices + [VotingOpened(id)];
      }
    }

    /** `check_if_too_old`, with one reading of the clock. */
    method CheckIfTooOld(id: ContestId, now: int)
      requires Valid() && id < |contests|
      modifies this
      ensures Valid()
      ensures contests == old(contests)[id := Refreshed(old(contests)[id], id, submissions, now)]
      ensures notices == old(notices) + RefreshNotices(old(contests)[id], id, submissions, now)
      ensures submissions == old(submissions) && scheduled == old(scheduled)
    {
      var c := contests[id];
      if c.status == Closed {
        return;
      }
      if now > VotingEndTime(c) {
        Deactivate(id);
      } else if c.status == Submissions && now > SubmissionsEndTime(c) {
        SwitchToVoting(id);
      }
    }

    /** `SubmissionManager.add`. A missing user or an unknown contest id raises. */
    method AddSubmission(data: SubmissionData, user: Option<UserId>, now: int) returns (outcome: AddOutcome)
      requires Valid()
      modifies this
      ensures Valid()
      ensures scheduled == old(scheduled)
      ensures user.None? || !ValidContestId(data.contestId, |old(contests)|) ==>
                outcome == Raised && contests == old(contests) && submissions == old(submissions)
                && notices == old(notices)
      ensures user.Some? && ValidContestId(data.contestId, |old(contests)|) ==>
                var id := data.contestId.value;
                var c := old(contests)[id];
                var r := Refreshed(c, id, old(submissions), now);
                var errs := AdmissionErrors(data, LikesNeeded(old(submissions), user.value), r.status == Submissions);
                && contests == old(contests)[id := r]
                && (errs == [] ==>
                      && outcome == Created
                      && submissions == old(submissions) + [Submission(data.clue, data.explanation, id, user.value, {}, now)]
                      && notices == old(notices) + RefreshNotices(c, id, old(submissions), now)
                                    + [SubmissionPosted(|old(submissions)|)])
                && (errs != [] ==>
                      && outcome == Rejected(errs)
                      && submissions == old(submissions)
                      && notices == old(notices) + RefreshNotices(c, id, old(submissions), now))
    {
      var errors: seq<AdmissionError> := [];
      if data.clue == [] {
        errors := errors + [ClueRequired];
      }
      if data.explanation == [] {
        errors := errors + [ExplanationRequired];
      }
      if data.contestId.None? {
        errors := errors + [NoContestSpecified];
      }
      if user.None? {
        errors := errors + [NotLoggedIn];
        // `user.submissions` on a missing user raises
        return Raised;
      }
      var u := user.value;
      var needed := SubmissionsBy(submissions, u) / 2 - LikesGiven(submissions, u);
      if needed > 0 {
        errors := errors + [MoreLikesNeeded(needed)];
      }
      if !ValidContestId(data.contestId, |contests|) {
        // `Contest.objects.get` finds no such contest and raises
        return Raised;
      }
      var id := data.contestId.value;
      ghost var checked := Flag(data.clue == [], ClueRequired) + Flag(data.explanation == [], ExplanationRequired)
                           + Flag(needed > 0, MoreLikesNeeded(if needed > 0 then needed as nat else 0));
      assert errors == checked;
      CheckIfTooOld(id, now);
      ghost var stillOpen := contests[id].status == Submissions;
      if contests[id].status != Submissions {
        errors := errors + [ContestClosed];
      }
      assert errors == checked + Flag(!stillOpen, ContestClosed);
      assert errors == AdmissionErrors(data, LikesNeeded(old(submissions), u), stillOpen);
      if errors != [] {
        outcome := Rejected(errors);
      } else {
        submissions := submissions + [Submission(data.clue, data.explanation, id, u, {}, now)];
        notices := notices + [SubmissionPosted(|submissions| - 1)];
        outcome := Created;
      }
    }
  }

  /** The posted id names a stored contest. */
  predicate ValidContestId(id: Option<int>, count: nat) {
    id.Some? && 0 <= id.value < count
  }
}
