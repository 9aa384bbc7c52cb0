/**
 * The leaderboard projection: one row per user with the sum and count of
 * the user's valid scores, an average over the fixed eight tests, and the
 * rows ordered by average, then tests taken, then name. The name collation
 * (`localeCompare`) is a parameter: any total preorder on strings.
 */
module Leaderboard {
  import opened Wrappers
  import opened UserModel
  import opened AthleteTestsModel
  import opened StableSort

  const TotalTests: nat := 8

  /** The two fields the leaderboard selects from a user document. */
  datatype UserRow = UserRow(name: Option<string>, profilePictureUrl: Option<string>)

  /** One leaderboard row. */
  datatype Row = Row(athleteId: UserId, name: Option<string>, averageScore: real, testsTaken: nat, avatarUrl: Option<string>)

  // ---------------------------------------------------------------- scores

  /** `Number(t.ratingScale)` is finite and in [1, 10]; an absent rating is `null`, i.e. 0. */
  predicate Counted(t: TestEntry) {
    t.ratingScale.Some? && 1.0 <= t.ratingScale.value <= 10.0
  }

  function Score(t: TestEntry): real {
    if Counted(t) then t.ratingScale.value else 0.0
  }

  /** The sum of the counted scores. */
  function ScoreSum(tests: seq<TestEntry>): real {
    if tests == [] then 0.0 else ScoreSum(tests[..|tests| - 1]) + Score(tests[|tests| - 1])
  }

  /** The number of counted scores. */
  function ScoreCount(tests: seq<TestEntry>): nat {
    if tests == [] then 0 else ScoreCount(tests[..|tests| - 1]) + (if Counted(tests[|tests| - 1]) then 1 else 0)
  }

  /** The per-user `forEach`: accumulate `sum` and `testsTaken` over the user's items. */
  method Accumulate(tests: seq<TestEntry>) returns (sum: real, testsTaken: nat)
    ensures sum == ScoreSum(tests) && testsTaken == ScoreCount(tests)
  {
    sum, testsTaken := 0.0, 0;
    var i := 0;
    while i < |tests|
      invariant 0 <= i <= |tests|
      invariant sum == ScoreSum(tests[..i]) && testsTaken == ScoreCount(tests[..i])
    {
      var score := tests[i];
      if score.ratingScale.Some? && 1.0 <= score.ratingScale.value <= 10.0 {
        sum := sum + score.ratingScale.value;
        testsTaken := testsTaken + 1;
      }
      assert tests[..i + 1][..i] == tests[..i];
      i := i + 1;
    }
    assert tests[..i] == tests;
  }

  /**
   * Each counted score lies in [1, 10], so the sum lies between the count and
   * ten times the count, and the count never exceeds the number of items.
   */
  lemma {:induction false} ScoreBounds(tests: seq<TestEntry>)
    ensures ScoreCount(tests) <= |tests|
    ensures ScoreCount(tests) as real <= ScoreSum(tests) <= 10.0 * ScoreCount(tests) as real
  {
    if tests != [] {
      ScoreBounds(tests[..|tests| - 1]);
    }
  }

  /** Nothing is counted exactly when no item carries a rating in [1, 10]. */
  lemma {:induction false} NothingCountedIff(tests: seq<TestEntry>)
    ensures ScoreCount(tests) == 0 <==> forall i :: 0 <= i < |tests| ==> !Counted(tests[i])
    ensures ScoreCount(tests) == 0 ==> ScoreSum(tests) == 0.0
  {
    if tests != [] {
      var init := tests[..|tests| - 1];
      NothingCountedIff(init);
      assert forall i :: 0 <= i < |init| ==> init[i] == tests[i];
    }
  }

  /** When every item is schema-valid and rated, every item is counted. */
  lemma {:induction false} AllRatedAllCounted(tests: seq<TestEntry>)
    requires forall i :: 0 <= i < |tests| ==> ValidEntry(tests[i]) && tests[i].ratingScale.Some?
    ensures ScoreCount(tests) == |tests|
  {
    if tests != [] {
      AllRatedAllCounted(tests[..|tests| - 1]);
    }
  }

  // ---------------------------------------------------------------- rows

  /** `testsByUser.get(String(user._id)) || []`. */
  function TestsOf(records: map<UserId, seq<TestEntry>>, id: UserId): seq<TestEntry> {
    if id in records then records[id] else []
  }

  /** `Number((sum / TOTAL_TESTS).toFixed(2))`, without the rounding. */
  function Average(sum: real): real {
    if TotalTests > 0 then sum / TotalTests as real else 0.0
  }

  /** The row for the user at position `id`. */
  function RowFor(id: UserId, user: UserRow, records: map<UserId, seq<TestEntry>>): Row {
    var tests := TestsOf(records, id);
    Row(id, user.name, Average(ScoreSum(tests)), ScoreCount(tests),
        if user.profilePictureUrl.Some? && user.profilePictureUrl.value != "" then user.profilePictureUrl else None)
  }

  /** `users.map(...)`: one row per user, in the users' order. */
  function Rows(users: seq<UserRow>, records: map<UserId, seq<TestEntry>>): (rows: seq<Row>)
  {
    seq(|users|, i requires 0 <= i < |users| => RowFor(i, users[i], records))
  }

  /** A row: the average is the sum over eight, not over the tests taken; the avatar is the picture url unless it is absent or empty. */
  lemma RowScores(id: UserId, user: UserRow, records: map<UserId, seq<TestEntry>>)
    ensures RowFor(id, user, records).averageScore * 8.0 == ScoreSum(TestsOf(records, id))
    ensures RowFor(id, user, records).testsTaken == ScoreCount(TestsOf(records, id))
    ensures 0.0 <= RowFor(id, user, records).averageScore <= 10.0 * RowFor(id, user, records).testsTaken as real / 8.0
    ensures RowFor(id, user, records).testsTaken <= |TestsOf(records, id)|
    ensures RowFor(id, user, records).avatarUrl.None? <==> user.profilePictureUrl.None? || user.profilePictureUrl.value == ""
    ensures RowFor(id, user, records).avatarUrl.Some? ==> RowFor(id, user, records).avatarUrl == user.profilePictureUrl
  {
    ScoreBounds(TestsOf(records, id));
  }

  /** A user without a record scores nothing. */
  lemma NoRecordNoScore(id: UserId, user: UserRow, records: map<UserId, seq<TestEntry>>)
    requires id !in records
    ensures RowFor(id, user, records).averageScore == 0.0 && RowFor(id, user, records).testsTaken == 0
  {
  }

  /** One perfect score counts as 1.25, not 10: the average is over all eight tests. */
  lemma OneTestOfEight(id: UserId, user: UserRow, t: TestEntry)
    requires t.ratingScale == Some(10.0)
    ensures RowFor(id, user, map[id := [t]]).averageScore == 1.25
    ensures RowFor(id, user, map[id := [t]]).testsTaken == 1
  {
    assert [t][..0] == [];
    assert ScoreSum([t]) == 10.0 && ScoreCount([t]) == 1;
  }

  // ---------------------------------------------------------------- order

  /** `String(name || '')`. */
  function NameText(name: Option<string>): string {
    if name.Some? then name.value else ""
  }

  /**
   * The comparator as "may stay before": higher average first, then more
   * tests taken, then the names in the collation order `nameLe`.
   */
  function RowOrder(nameLe: (string, string) -> bool): (Row, Row) -> bool {
    (a: Row, b: Row) =>
      a.averageScore > b.averageScore ||
      (a.averageScore == b.averageScore &&
        (a.testsTaken > b.testsTaken ||
         (a.testsTaken == b.testsTaken && nameLe(NameText(a.name), NameText(b.name)))))
  }

  /** A total preorder on names makes the comparator a total preorder on rows. */
  lemma RowOrderTotal(nameLe: (string, string) -> bool)
    requires TotalPreorder(nameLe)
    ensures TotalPreorder(RowOrder(nameLe))
  {
    var le := RowOrder(nameLe);
    forall a: Row, b: Row, c: Row | le(a, b) && le(b, c)
      ensures le(a, c)
    {
      if a.averageScore == b.averageScore == c.averageScore && a.testsTaken == b.testsTaken == c.testsTaken {
        assert nameLe(NameText(a.name), NameText(b.name)) && nameLe(NameText(b.name), NameText(c.name));
      }
    }
    forall a: Row, b: Row
      ensures le(a, b) || le(b, a)
    {
      assert nameLe(NameText(a.name), NameText(b.name)) || nameLe(NameText(b.name), NameText(a.name));
    }
  }

  /** The leaderboard: build every row, then sort them. */
  method BuildLeaderboard(users: seq<UserRow>, records: map<UserId, seq<TestEntry>>, nameLe: (string, string) -> bool)
    returns (board: seq<Row>)
    ensures board == Sort(Rows(users, records), RowOrder(nameLe))
  {
    var rows: seq<Row> := [];
    var i := 0;
    while i < |users|
      invariant 0 <= i <= |users|
      invariant rows == Rows(users, records)[..i]
    {
      var tests := if i in records then records[i] else [];
      var sum, testsTaken := Accumulate(tests);
      var avatar := if users[i].profilePictureUrl.Some? && users[i].profilePictureUrl.value != "" then users[i].profilePictureUrl else None;
      rows := rows + [Row(i, users[i].name, Average(sum), testsTaken, avatar)];
      assert Rows(users, records)[..i + 1] == Rows(users, records)[..i] + [RowFor(i, users[i], records)];
      i := i + 1;
    }
    assert Rows(users, records)[..i] == Rows(users, records);
    board := Sort(rows, RowOrder(nameLe));
  }

  /**
   * The leaderboard holds exactly one row per user (a permutation of the
   * rows), ordered by average descending, then tests taken descending, then
   * name in the collation order.
   */
  lemma LeaderboardOrdered(users: seq<UserRow>, records: map<UserId, seq<TestEntry>>, nameLe: (string, string) -> bool)
    requires TotalPreorder(nameLe)
    ensures var board := Sort(Rows(users, records), RowOrder(nameLe));
      && |board| == |users|
      && multiset(board) == multiset(Rows(users, records))
      && forall i, j :: 0 <= i < j < |board| ==>
           || board[i].averageScore > board[j].averageScore
           || (board[i].averageScore == board[j].averageScore && board[i].testsTaken > board[j].testsTaken)
           || (board[i].averageScore == board[j].averageScore && board[i].testsTaken == board[j].testsTaken &&
               nameLe(NameText(board[i].name), NameText(board[j].name)))
  {
    RowOrderTotal(nameLe);
    SortSortedPermutation(Rows(users, records), RowOrder(nameLe));
  }

  /** Each user appears exactly once: every athlete id of the board is a user's position, and every position is there. */
  lemma OneRowPerUser(users: seq<UserRow>, records: map<UserId, seq<TestEntry>>, nameLe: (string, string) -> bool, id: UserId)
    requires TotalPreorder(nameLe) && id < |users|
    ensures multiset(Sort(Rows(users, records), RowOrder(nameLe)))[RowFor(id, users[id], records)] >= 1
    ensures forall r :: r in Sort(Rows(users, records), RowOrder(nameLe)) ==> r.athleteId < |users|
  {
    var rows := Rows(users, records);
    RowOrderTotal(nameLe);
    SortSortedPermutation(rows, RowOrder(nameLe));
    assert rows[id] in multiset(rows);
    forall r | r in Sort(rows, RowOrder(nameLe))
      ensures r.athleteId < |users|
    {
      assert r in multiset(rows);
      assert r in rows;
    }
  }
}
