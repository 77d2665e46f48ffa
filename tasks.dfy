/**
 * The status-check callback the task queue runs at each scheduled time: it looks
 * the contest up by id and lets it catch up with the clock, and does nothing for
 * an id that no longer names a contest.
 */
module Tasks {
  import opened Models

  /** `update_contest_status`. */
  method UpdateContestStatus(store: Store, contestId: int, now: int)
    requires store.Valid()
    modifies store
    ensures store.Valid()
    ensures !(0 <= contestId < |old(store.contests)|) ==>
              store.contests == old(store.contests) && store.notices == old(store.notices)
    ensures 0 <= contestId < |old(store.contests)| ==>
              && store.contests == old(store.contests)[contestId := Refreshed(old(store.contests)[contestId], contestId, store.submissions, now)]
              && store.notices == old(store.notices) + RefreshNotices(old(store.contests)[contestId], contestId, store.submissions, now)
    ensures store.submissions == old(store.submissions) && store.scheduled == old(store.scheduled)
    ensures |store.contests| == |old(store.contests)|
    ensures forall k :: 0 <= k < |old(store.contests)| && k != contestId ==> store.contests[k] == old(store.contests)[k]
  {
    if 0 <= contestId < |store.contests| {
      store.CheckIfTooOld(contestId, now);
    }
  }

  /** Running the callback again once the contest is closed changes nothing and posts nothing. */
  lemma RepeatAfterCloseIsNoOp(c: Contest, id: ContestId, subs: seq<Submission>, now: int, later: int)
    requires Refreshed(c, id, subs, now).status == Closed
    ensures var r := Refreshed(c, id, subs, now);
            Refreshed(r, id, subs, later) == r && RefreshNotices(r, id, subs, later) == []
  {}
}
