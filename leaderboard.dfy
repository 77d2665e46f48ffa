/**
 * The leaderboard (`sort_users`): one row of statistics per user, ranked by
 * contests won and then by average likes per submission, both descending, with
 * users that tie on both kept in their original order (Python's sort is stable).
 */
module Leaderboard {
  import opened Wrappers
  import opened Models

  datatype UserStats = UserStats(
    user: UserId,
    contestsWon: nat,
    totalSubmissions: nat,
    totalLikes: nat,
    averageLikes: real)

  /** How many contests name `u` as their winning user. */
  function ContestsWon(contests: seq<Contest>, u: UserId): nat
    decreases |contests|
  {
    if contests == [] then 0
    else ContestsWon(contests[..|contests| - 1], u) + (if contests[|contests| - 1].winningUser == Some(u) then 1 else 0)
  }

  /** The likes received, summed over the submissions of `u`. */
  function TotalLikes(subs: seq<Submission>, u: UserId): nat
    decreases |subs|
  {
    if subs == [] then 0
    else TotalLikes(subs[..|subs| - 1], u) + (if subs[|subs| - 1].submittedBy == u then |subs[|subs| - 1].likers| else 0)
  }

  /** `total_likes / total_submissions`, or 0 for a user with no submissions. */
  function Average(totalLikes: nat, totalSubmissions: nat): (a: real)
    ensures a >= 0.0
    ensures totalSubmissions > 0 ==> a * totalSubmissions as real == totalLikes as real
    ensures totalSubmissions == 0 ==> a == 0.0
  {
    if totalSubmissions > 0 then totalLikes as real / totalSubmissions as real else 0.0
  }

  /** A user with no submissions has received no likes. */
  lemma {:induction false} NoSubmissionsNoLikes(subs: seq<Submission>, u: UserId)
    requires SubmissionsBy(subs, u) == 0
    ensures TotalLikes(subs, u) == 0
    decreases |subs|
  {
    if subs != [] {
      NoSubmissionsNoLikes(subs[..|subs| - 1], u);
    }
  }

  /**
   * The row built for user `u` by the loop: the user, the contests they won, their
   * submissions and the likes those received, and the likes per submission, which
   * is 0 for a user who has submitted nothing (and so has received no likes).
   */
  function StatsOf(u: UserId, contests: seq<Contest>, subs: seq<Submission>): (r: UserStats)
    ensures r.user == u && r.contestsWon == ContestsWon(contests, u)
    ensures r.totalSubmissions == SubmissionsBy(subs, u) && r.totalLikes == TotalLikes(subs, u)
    ensures r.averageLikes >= 0.0
    ensures r.totalSubmissions > 0 ==> r.averageLikes * r.totalSubmissions as real == r.totalLikes as real
    ensures r.totalSubmissions == 0 ==> r.totalLikes == 0 && r.averageLikes == 0.0
  {
    var n := SubmissionsBy(subs, u);
    var likes := TotalLikes(subs, u);
    if n == 0 then NoSubmissionsNoLikes(subs, u); UserStats(u, ContestsWon(contests, u), n, likes, Average(likes, n))
    else UserStats(u, ContestsWon(contests, u), n, likes, Average(likes, n))
  }

  // ---------------------------------------------------------------------------
  // The ranking order
  // ---------------------------------------------------------------------------

  /** The sort key `(-contests_won, -average_likes)`, compared lexicographically. */
  predicate RanksAbove(a: UserStats, b: UserStats) {
    a.contestsWon > b.contestsWon || (a.contestsWon == b.contestsWon && a.averageLikes > b.averageLikes)
  }

  predicate SameKey(a: UserStats, b: UserStats) {
    a.contestsWon == b.contestsWon && a.averageLikes == b.averageLikes
  }

  /** No row ranks above one that comes before it. */
  predicate Ranked(s: seq<UserStats>) {
    forall i, j :: 0 <= i < j < |s| ==> !RanksAbove(s[j], s[i])
  }

  /** The rows whose sort key is that of `k`, in order. */
  function WithKeyOf(s: seq<UserStats>, k: UserStats): seq<UserStats>
    decreases |s|
  {
    if s == [] then []
    else WithKeyOf(s[..|s| - 1], k) + (if SameKey(s[|s| - 1], k) then [s[|s| - 1]] else [])
  }

  /** Places `x` after every row of `t` that does not rank below it. */
  function Insert(t: seq<UserStats>, x: UserStats): seq<UserStats>
    decreases |t|
  {
    if t == [] || !RanksAbove(x, t[|t| - 1]) then t + [x]
    else Insert(t[..|t| - 1], x) + [t[|t| - 1]]
  }

  /** The stable sort `users_list.sort(key=...)`. */
  function SortedRows(s: seq<UserStats>): seq<UserStats>
    decreases |s|
  {
    if s == [] then [] else Insert(SortedRows(s[..|s| - 1]), s[|s| - 1])
  }

  lemma {:induction false} InsertPermutes(t: seq<UserStats>, x: UserStats)
    ensures multiset(Insert(t, x)) == multiset(t) + multiset{x}
    decreases |t|
  {
    if t != [] && RanksAbove(x, t[|t| - 1]) {
      InsertPermutes(t[..|t| - 1], x);
      assert t == t[..|t| - 1] + [t[|t| - 1]];
    }
  }

  /** Every row of `Insert(t, x)` is `x` or a row of `t`. */
  lemma {:induction false} InsertElements(t: seq<UserStats>, x: UserStats)
    ensures |Insert(t, x)| == |t| + 1
    ensures forall y :: y in Insert(t, x) <==> y in t || y == x
    decreases |t|
  {
    if t != [] && RanksAbove(x, t[|t| - 1]) {
      InsertElements(t[..|t| - 1], x);
      assert t == t[..|t| - 1] + [t[|t| - 1]];
    }
  }

  lemma {:induction false} InsertRanked(t: seq<UserStats>, x: UserStats)
    requires Ranked(t)
    ensures Ranked(Insert(t, x))
    decreases |t|
  {
    if t != [] && RanksAbove(x, t[|t| - 1]) {
      var init, last := t[..|t| - 1], t[|t| - 1];
      InsertRanked(init, x);
      InsertElements(init, x);
      var r := Insert(init, x);
      forall i | 0 <= i < |r|
        ensures !RanksAbove(last, r[i])
      {
        assert r[i] in r;
        if r[i] != x {
          var k :| 0 <= k < |init| && init[k] == r[i];
          assert t[k] == init[k];
        }
      }
    }
  }

  lemma {:induction false} InsertWithKey(t: seq<UserStats>, x: UserStats, k: UserStats)
    ensures WithKeyOf(Insert(t, x), k) == WithKeyOf(t, k) + (if SameKey(x, k) then [x] else [])
    decreases |t|
  {
    if t == [] || !RanksAbove(x, t[|t| - 1]) {
      assert (t + [x])[..|t|] == t;
    } else {
      var init, last := t[..|t| - 1], t[|t| - 1];
      InsertWithKey(init, x, k);
      var r := Insert(init, x);
      assert (r + [last])[..|r|] == r;
      assert !(SameKey(x, k) && SameKey(last, k));
    }
  }

  /** The sort orders the rows by the key. */
  lemma {:induction false} SortedRowsRanked(s: seq<UserStats>)
    ensures Ranked(SortedRows(s))
    decreases |s|
  {
    if s != [] {
      SortedRowsRanked(s[..|s| - 1]);
      InsertRanked(SortedRows(s[..|s| - 1]), s[|s| - 1]);
    }
  }

  /** The sort keeps every row, each as often as before. */
  lemma {:induction false} SortedRowsPermutes(s: seq<UserStats>)
    ensures multiset(SortedRows(s)) == multiset(s)
    decreases |s|
  {
    if s != [] {
      SortedRowsPermutes(s[..|s| - 1]);
      InsertPermutes(SortedRows(s[..|s| - 1]), s[|s| - 1]);
      assert s == s[..|s| - 1] + [s[|s| - 1]];
    }
  }

  /** The sort is stable: rows with equal keys keep their relative order. */
  lemma {:induction false} SortedRowsStable(s: seq<UserStats>, k: UserStats)
    ensures WithKeyOf(SortedRows(s), k) == WithKeyOf(s, k)
    decreases |s|
  {
    if s != [] {
      SortedRowsStable(s[..|s| - 1], k);
      InsertWithKey(SortedRows(s[..|s| - 1]), s[|s| - 1], k);
    }
  }

  // ---------------------------------------------------------------------------
  // sort_users
  // ---------------------------------------------------------------------------

  /** The rows the loop builds, one per user in the order of `users`. */
  function StatsRows(users: seq<UserId>, contests: seq<Contest>, subs: seq<Submission>): seq<UserStats> {
    seq(|users|, i requires 0 <= i < |users| => StatsOf(users[i], contests, subs))
  }

  /** The leaderboard: the loop's rows for every user, then the stable sort. */
  method SortUsers(users: seq<UserId>, contests: seq<Contest>, subs: seq<Submission>) returns (rows: seq<UserStats>)
    ensures rows == SortedRows(StatsRows(users, contests, subs))
    ensures Ranked(rows)
    ensures multiset(rows) == multiset(StatsRows(users, contests, subs))
    ensures forall k :: WithKeyOf(rows, k) == WithKeyOf(StatsRows(users, contests, subs), k)
  {
    var usersList: seq<UserStats> := [];
    for i := 0 to |users|
      invariant |usersList| == i
      invariant forall k :: 0 <= k < i ==> usersList[k] == StatsOf(users[k], contests, subs)
    {
      var u := users[i];
      var contestsWon := ContestsWon(contests, u);
      var totalSubmissions := SubmissionsBy(subs, u);
      var totalLikes := TotalLikes(subs, u);
      var averageLikes := if totalSubmissions > 0 then totalLikes as real / totalSubmissions as real else 0.0;
      usersList := usersList + [UserStats(u, contestsWon, totalSubmissions, totalLikes, averageLikes)];
    }
    assert usersList == StatsRows(users, contests, subs);
    rows := SortedRows(usersList);
    SortedRowsRanked(usersList);
    SortedRowsPermutes(usersList);
    forall k
      ensures WithKeyOf(rows, k) == WithKeyOf(usersList, k)
    {
      SortedRowsStable(usersList, k);
    }
  }

  // ---------------------------------------------------------------------------
  // The leaderboard of the three-user fixture
  // ---------------------------------------------------------------------------

  /**
   * Three users; the third wrote two clues liked by two users and by one, and
   * won the contest; the second wrote one clue liked once; the first wrote none.
   */
  lemma FixtureStats(users: seq<UserId>, contests: seq<Contest>, subs: seq<Submission>)
    requires users == [1, 2, 3]
    requires contests == [Contest("EXAMPLE CONTEST (7, 7)", 1, Closed, None, Some(3), 0)]
    requires subs == [Submission("Clue 1 (7, 7)", "", 0, 3, {1, 2}, 1),
                      Submission("Clue 2 (7, 7)", "", 0, 3, {2}, 2),
                      Submission("Clue 3 (7, 7)", "", 0, 2, {1}, 3)]
    ensures StatsRows(users, contests, subs) ==
              [UserStats(1, 0, 0, 0, 0.0), UserStats(2, 0, 1, 1, 1.0), UserStats(3, 1, 2, 3, 1.5)]
  {
    var both: set<UserId> := {1, 2};
    assert |both| == 2 by {
      var one: set<UserId> := {1};
      assert both == one + {2};
    }
    assert subs[..|subs| - 1] == subs[..2] && subs[..2][..1] == subs[..1] && subs[..1][..0] == [];
    assert SubmissionsBy(subs[..1], 3) == 1 && TotalLikes(subs[..1], 3) == 2;
    assert SubmissionsBy(subs[..2], 3) == 2 && TotalLikes(subs[..2], 3) == 3;
    assert SubmissionsBy(subs, 3) == 2 && TotalLikes(subs, 3) == 3;
    assert SubmissionsBy(subs[..1], 2) == 0 && TotalLikes(subs[..1], 2) == 0;
    assert SubmissionsBy(subs[..2], 2) == 0 && TotalLikes(subs[..2], 2) == 0;
    assert SubmissionsBy(subs, 2) == 1 && TotalLikes(subs, 2) == 1;
    assert SubmissionsBy(subs[..1], 1) == 0 && TotalLikes(subs[..1], 1) == 0;
    assert SubmissionsBy(subs[..2], 1) == 0 && TotalLikes(subs[..2], 1) == 0;
    assert SubmissionsBy(subs, 1) == 0 && TotalLikes(subs, 1) == 0;
    FixtureWins(contests);
    assert Average(3, 2) == 1.5;
  }

  /** In the fixture, only the third user has won a contest. */
  lemma FixtureWins(contests: seq<Contest>)
    requires contests == [Contest("EXAMPLE CONTEST (7, 7)", 1, Closed, None, Some(3), 0)]
    ensures ContestsWon(contests, 1) == 0 && ContestsWon(contests, 2) == 0 && ContestsWon(contests, 3) == 1
  {
    assert contests[..0] == [];
  }

  /** The fixture ranks the users third, second, first. */
  lemma FixtureOrder(users: seq<UserId>, contests: seq<Contest>, subs: seq<Submission>)
    requires users == [1, 2, 3]
    requires contests == [Contest("EXAMPLE CONTEST (7, 7)", 1, Closed, None, Some(3), 0)]
    requires subs == [Submission("Clue 1 (7, 7)", "", 0, 3, {1, 2}, 1),
                      Submission("Clue 2 (7, 7)", "", 0, 3, {2}, 2),
                      Submission("Clue 3 (7, 7)", "", 0, 2, {1}, 3)]
    ensures var rows := SortedRows(StatsRows(users, contests, subs));
            |rows| == 3 && rows[0].user == 3 && rows[1].user == 2 && rows[2].user == 1
  {
    FixtureStats(users, contests, subs);
    FixtureRowsSorted();
  }

  lemma FixtureRowsSorted()
    ensures SortedRows([UserStats(1, 0, 0, 0, 0.0), UserStats(2, 0, 1, 1, 1.0), UserStats(3, 1, 2, 3, 1.5)])
            == [UserStats(3, 1, 2, 3, 1.5), UserStats(2, 0, 1, 1, 1.0), UserStats(1, 0, 0, 0, 0.0)]
  {
    var a, b, c := UserStats(1, 0, 0, 0, 0.0), UserStats(2, 0, 1, 1, 1.0), UserStats(3, 1, 2, 3, 1.5);
    assert [a, b, c][..2] == [a, b] && [a, b][..1] == [a] && [a][..0] == [];
    assert SortedRows([a]) == [a];
    assert Insert([a], b) == Insert([], b) + [a];
    assert SortedRows([a, b]) == [b, a];
    assert [b, a][..1] == [b];
    assert Insert([b], c) == [c, b];
    assert SortedRows([a, b, c]) == [c, b, a];
  }
}
