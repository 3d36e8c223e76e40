/** The pure helpers of frontend/src/api/gameApi.ts: turning the
    leaderboard the game API reports into display rows, and the countdown
    to the end of the open round. Times are whole milliseconds since the
    epoch; reading them from date strings and the clock happens outside. */
module GameApi {

  /** One entry of the reported leaderboard. */
  datatype LeaderboardEntry = LeaderboardEntry(account: string, winnings: string)

  /** One display row; the `points` column is not modelled (see README). */
  datatype FormattedEntry = FormattedEntry(rank: nat, avatar: string, username: string, walletId: string)

  const AVATAR_PREFIX: string := "https://api.dicebear.com/7.x/avataaars/svg?seed="
  const USERNAME_PREFIX: string := "Player_"

  /** `formatLeaderboardData`: one row per entry, in the order given. */
  function FormatLeaderboardData(leaderboard: seq<LeaderboardEntry>): (rows: seq<FormattedEntry>)
    ensures |rows| == |leaderboard|
    ensures forall i :: 0 <= i < |rows| ==>
      && rows[i].rank == i + 1
      && rows[i].walletId == leaderboard[i].account
      && rows[i].username == USERNAME_PREFIX + leaderboard[i].account
      && rows[i].avatar == AVATAR_PREFIX + leaderboard[i].account
  {
    seq(|leaderboard|, i requires 0 <= i < |leaderboard| =>
      var account := leaderboard[i].account;
      FormattedEntry(i + 1, AVATAR_PREFIX + account, USERNAME_PREFIX + account, account))
  }

  /** `calculateCountdown`: whole seconds until `finishMs`, rounded up, and
      0 once it has passed. */
  function CalculateCountdown(finishMs: int, nowMs: int): (seconds: nat)
    ensures seconds == 0 <==> finishMs <= nowMs
    ensures finishMs > nowMs ==> (seconds - 1) * 1000 < finishMs - nowMs <= seconds * 1000
  {
    var diff := finishMs - nowMs;
    if diff <= 0 then 0 else (diff + 999) / 1000
  }

  // ------------------------------------------------------------ properties

  /** Ranks run 1, 2, ..., n: strictly increasing, so the rows keep the
      order of the reported leaderboard and nothing is re-sorted. */
  lemma RanksAreOneToN(leaderboard: seq<LeaderboardEntry>)
    ensures
      var rows := FormatLeaderboardData(leaderboard);
      && (forall i, j :: 0 <= i < j < |rows| ==> rows[i].rank < rows[j].rank)
      && (forall i :: 0 <= i < |rows| ==> 1 <= rows[i].rank <= |rows|)
  {
  }

  /** The reported accounts can be read back from the rows, in order. */
  lemma AccountsReadBack(leaderboard: seq<LeaderboardEntry>)
    ensures
      var rows := FormatLeaderboardData(leaderboard);
      forall i :: 0 <= i < |rows| ==>
        && rows[i].walletId == leaderboard[i].account
        && rows[i].username[|USERNAME_PREFIX|..] == leaderboard[i].account
        && rows[i].avatar[|AVATAR_PREFIX|..] == leaderboard[i].account
  {
  }

  /** The countdown never grows while time passes. */
  lemma CountdownNonIncreasing(finishMs: int, nowMs: int, laterMs: int)
    requires nowMs <= laterMs
    ensures CalculateCountdown(finishMs, laterMs) <= CalculateCountdown(finishMs, nowMs)
  {
    var a := CalculateCountdown(finishMs, nowMs);
    var b := CalculateCountdown(finishMs, laterMs);
    if finishMs > laterMs {
      assert (b - 1) * 1000 < finishMs - laterMs <= finishMs - nowMs <= a * 1000;
    }
  }

  /** The countdown drops by one second for each second that passes, as
      long as the round has not ended. */
  lemma CountdownTicks(finishMs: int, nowMs: int)
    requires finishMs > nowMs + 1000
    ensures CalculateCountdown(finishMs, nowMs + 1000) == CalculateCountdown(finishMs, nowMs) - 1
  {
    var d := finishMs - nowMs;
    assert (d - 1000 + 999) / 1000 == (d + 999) / 1000 - 1;
  }
}
