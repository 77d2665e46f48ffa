/**
 * The management command that re-creates the status-check callbacks of contests
 * still running (after the task queue lost them): for every contest created
 * within the last two phase lengths, a callback just after its voting end and,
 * when that is also still ahead, one just after its submissions end.
 */
module CreateCeleryTasks {
  import opened Models

  /** The callbacks the command queues for contest `c`, stored as `id`, in the order it queues them. */
  function ContestCallbacks(id: ContestId, c: Contest, now: int): (r: seq<Callback>)
    ensures |r| <= 2
    ensures forall k :: 0 <= k < |r| ==> r[k].contest == id && r[k].eta > now
    ensures |r| >= 1 <==> VotingEndTime(c) > now
    ensures |r| >= 1 ==> r[0].eta == VotingEndTime(c) + 1
    ensures |r| == 2 <==> SubmissionsEndTime(c) > now
    ensures |r| == 2 ==> r[1].eta == SubmissionsEndTime(c) + 1
  {
    if c.createdAt > now - SubmissionsLength - VotingLength then
      if VotingEndTime(c) > now then
        [Callback(id, VotingEndTime(c) + 1)]
        + (if SubmissionsEndTime(c) > now then [Callback(id, SubmissionsEndTime(c) + 1)] else [])
      else []
    else []
  }

  /** The callbacks queued for the first `|contests|` contests, contest by contest. */
  function Backfill(contests: seq<Contest>, now: int): seq<Callback>
    decreases |contests|
  {
    if contests == [] then []
    else
      var last := |contests| - 1;
      Backfill(contests[..last], now) + ContestCallbacks(last, contests[last], now)
  }

  /** The callbacks in `calls` that are for contest `id`, in order. */
  function CallbacksFor(calls: seq<Callback>, id: ContestId): seq<Callback>
    decreases |calls|
  {
    if calls == [] then []
    else CallbacksFor(calls[..|calls| - 1], id) + (if calls[|calls| - 1].contest == id then [calls[|calls| - 1]] else [])
  }

  lemma {:induction false} CallbacksForAppend(a: seq<Callback>, b: seq<Callback>, id: ContestId)
    ensures CallbacksFor(a + b, id) == CallbacksFor(a, id) + CallbacksFor(b, id)
    decreases |b|
  {
    if b == [] {
      assert a + b == a;
    } else {
      var init := b[..|b| - 1];
      assert (a + b)[..|a + b| - 1] == a + init;
      CallbacksForAppend(a, init, id);
    }
  }

  lemma {:induction false} CallbacksForOthers(calls: seq<Callback>, id: ContestId)
    requires forall k :: 0 <= k < |calls| ==> calls[k].contest != id
    ensures CallbacksFor(calls, id) == []
    decreases |calls|
  {
    if calls != [] {
      CallbacksForOthers(calls[..|calls| - 1], id);
    }
  }

  lemma {:induction false} CallbacksForOwn(calls: seq<Callback>, id: ContestId)
    requires forall k :: 0 <= k < |calls| ==> calls[k].contest == id
    ensures CallbacksFor(calls, id) == calls
    decreases |calls|
  {
    if calls != [] {
      CallbacksForOwn(calls[..|calls| - 1], id);
    }
  }

  /** Every queued callback is for a stored contest, and is due after `now`. */
  lemma {:induction false} BackfillDueLater(contests: seq<Contest>, now: int)
    ensures forall k :: 0 <= k < |Backfill(contests, now)| ==>
              Backfill(contests, now)[k].contest < |contests| && Backfill(contests, now)[k].eta > now
    decreases |contests|
  {
    if contests != [] {
      var last := |contests| - 1;
      BackfillDueLater(contests[..last], now);
      var a, b := Backfill(contests[..last], now), ContestCallbacks(last, contests[last], now);
      assert forall k :: |a| <= k < |a + b| ==> (a + b)[k] == b[k - |a|];
    }
  }

  /** Contest `id` gets exactly the callbacks `ContestCallbacks` gives it: so at most one of each kind. */
  lemma {:induction false} BackfillPerContest(contests: seq<Contest>, now: int, id: ContestId)
    requires id < |contests|
    ensures CallbacksFor(Backfill(contests, now), id) == ContestCallbacks(id, contests[id], now)
    decreases |contests|
  {
    var last := |contests| - 1;
    var init := contests[..last];
    var a, b := Backfill(init, now), ContestCallbacks(last, contests[last], now);
    CallbacksForAppend(a, b, id);
    BackfillDueLater(init, now);
    if id == last {
      CallbacksForOthers(a, id);
      CallbacksForOwn(b, id);
    } else {
      BackfillPerContest(init, now, id);
      CallbacksForOthers(b, id);
    }
  }

  /** `Command.handle`: one pass over the contests, queueing callbacks as it goes. */
  method Handle(contests: seq<Contest>, now: int) returns (queued: seq<Callback>)
    ensures queued == Backfill(contests, now)
  {
    var earliestTime := now - SubmissionsLength - VotingLength;
    queued := [];
    for i := 0 to |contests|
      invariant queued == Backfill(contests[..i], now)
    {
      assert contests[..i + 1][..i] == contests[..i];
      var contest := contests[i];
      if contest.createdAt > earliestTime {
        if VotingEndTime(contest) > now {
          queued := queued + [Callback(i, VotingEndTime(contest) + 1)];
          if SubmissionsEndTime(contest) > now {
            queued := queued + [Callback(i, SubmissionsEndTime(contest) + 1)];
          }
        }
      }
    }
    assert contests[..|contests|] == contests;
  }
}
