/** The read-only `/guess-game` view (guess-game/src/api.rs): the end of the
    round now open, the stakes placed in it so far, and the indexer's last
    winner and leaderboard. The clock reading and the indexer's snapshot are
    parameters; their entry types `W` and `E` are passed through unread. */
module Api {
  import opened Common
  import opened Time
  import opened State
  import opened Settlement
  import opened Game

  datatype GuessGameData<W, E> = GuessGameData(
    currentRoundFinishes: Timestamp,
    currentBets: real,
    lastWinner: Option<W>,
    leaderboard: seq<E>)

  /** `wagers.iter().map(|w| w.amount).sum()`: a sum from the front. */
  function SumAmounts(ws: seq<Wager>): real {
    if ws == [] then 0.0 else ws[0].amount + SumAmounts(ws[1..])
  }

  /** `pending_wagers.get(&round).map_or_else(Decimal::zero, ..)`. */
  function CurrentBets(s: GuessState, round: GuessTimestamp): real {
    if round in s.pendingWagers then SumAmounts(s.pendingWagers[round]) else 0.0
  }

  /** `guess_game_data` at clock reading `now`. Before the epoch `after`
      panics, and a round end beyond the timestamp range makes the
      conversion panic; both are the `Err` here. */
  function GuessGameDataAt<W, E>(now: Timestamp, s: GuessState, lastWinner: Option<W>, leaderboard: seq<E>): Result<GuessGameData<W, E>, TimeError> {
    match After(now)
    case Err(e) => Err(e)
    case Ok(round) =>
      match ToTimestamp(round)
      case Err(e) => Err(e)
      case Ok(finishes) => Ok(GuessGameData(finishes, CurrentBets(s, round), lastWinner, leaderboard))
  }

  // ------------------------------------------------------------ properties

  /** Summing from the front gives the pot `SettleBet` splits. */
  lemma {:induction false} SumAmountsIsTotalBet(ws: seq<Wager>)
    ensures SumAmounts(ws) == TotalBet(ws)
  {
    if ws != [] {
      var n := |ws| - 1;
      SumAmountsIsTotalBet(ws[1..]);
      if n > 0 {
        SumAmountsIsTotalBet(ws[1..][..n - 1]);
        assert ws[1..][..n - 1] == ws[..n][1..];
        SumAmountsIsTotalBet(ws[..n]);
        assert ws[..n][0] == ws[0];
      } else {
        assert ws[..n] == [];
      }
    }
  }

  /** The view answers for every clock reading from the epoch up to the last
      representable second; the round it reports ends within the next
      minute, its bets are the open round's pot (0 when nobody has bet), and
      the indexer's fields pass through unchanged. */
  lemma GuessGameDataSpec<W, E>(now: Timestamp, s: GuessState, lastWinner: Option<W>, leaderboard: seq<E>)
    ensures now < 0 ==> GuessGameDataAt(now, s, lastWinner, leaderboard) == Err(BeforeEpoch)
    ensures now == MAX_SECOND ==> GuessGameDataAt(now, s, lastWinner, leaderboard) == Err(OutOfRange)
    ensures 0 <= now < MAX_SECOND ==>
      var round := After(now).value;
      var r := GuessGameDataAt(now, s, lastWinner, leaderboard);
      && r.Ok?
      && now < r.value.currentRoundFinishes <= now + 60
      && r.value.currentRoundFinishes == round.minutes * 60
      && r.value.currentBets == (if round in s.pendingWagers then TotalBet(s.pendingWagers[round]) else 0.0)
      && r.value.lastWinner == lastWinner
      && r.value.leaderboard == leaderboard
  {
    if now == MAX_SECOND {
      BucketEndAtLastSecond();
    }
    if 0 <= now < MAX_SECOND {
      var round := After(now).value;
      BucketEndBounds(now);
      if round in s.pendingWagers {
        SumAmountsIsTotalBet(s.pendingWagers[round]);
      }
    }
  }

  /** A bet accepted now shows up in the view at once: the reported bets
      rise by exactly its stake. */
  lemma BetRaisesCurrentBets(l: Ledger, sender: AccountId, now: Timestamp, guess: U8, amount: real)
    requires PlaceBetStep(l, sender, now, guess, amount).outcome.Ok?
    ensures
      var round := After(now).value;
      CurrentBets(PlaceBetStep(l, sender, now, guess, amount).after.state, round) == CurrentBets(l.state, round) + amount
  {
    var round := After(now).value;
    var before := if round in l.state.pendingWagers then l.state.pendingWagers[round] else [];
    SumAmountsIsTotalBet(before);
    SumAmountsIsTotalBet(before + [Wager(sender, guess, amount)]);
    AppendRaisesPot(before, Wager(sender, guess, amount));
  }
}
