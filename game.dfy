/** The game's state machine (guess-game/src/app.rs). The framework's
    execution context is a class whose fields the three message handlers
    update in place; each handler is proved against a step function on a
    `Ledger` snapshot, and the properties of the game are lemmas about
    those step functions. */
module Game {
  import opened Common
  import opened Time
  import opened State
  import opened Settlement

  /** What `GrabFunds` mints. */
  const FAUCET_AMOUNT: real := 100.0

  /** The random number as `SettleBet` receives it. `signer` is what the
      signature check yields: the key that signed, or `None` when the
      signature does not verify. */
  datatype SignedRngResult = SignedRngResult(signer: Option<PublicKey>, number: U32, timestamp: I64)

  datatype GuessMessage =
    | GrabFunds
    | PlaceBet(guess: U8, amount: real)
    | SettleBet(result: SignedRngResult)

  datatype ExecError =
    | AlreadyReceivedFunds(account: AccountId)
    | InsufficientBalance
    | TimePanic(cause: TimeError)   // `GuessTimestamp::after` panics
    | BadSignature
    | WrongSigner
    | InvalidTimestamp
    | NoPendingWagers
    | DivisionByZero                // `Decimal` division panics

  /** The app state with the balances of the game's one asset, which the
      framework keeps beside it. */
  datatype Ledger = Ledger(state: GuessState, balances: map<AccountId, real>)

  /** What a message did: the amounts it minted per account, or its error,
      and the state it left behind. */
  datatype Step = Step(outcome: Result<map<AccountId, real>, ExecError>, after: Ledger)

  /** `new_state`: the initial state for a given randomness key. */
  function NewState(rngPublicKey: PublicKey): GuessState {
    GuessState(rngPublicKey, map[], map[])
  }

  /** `pending_wagers.get_or_default(g).push(w)`. */
  function AppendWager(pending: map<GuessTimestamp, seq<Wager>>, g: GuessTimestamp, w: Wager): (r: map<GuessTimestamp, seq<Wager>>)
    ensures r.Keys == pending.Keys + {g}
  {
    pending[g := (if g in pending then pending[g] else []) + [w]]
  }

  /** Every account credited with its amount in `p`. */
  function Credit(balances: map<AccountId, real>, p: map<AccountId, real>): (r: map<AccountId, real>)
    ensures forall a :: a in r <==> a in balances || a in p
  {
    map a | a in balances.Keys + p.Keys :: Amount(balances, a) + Amount(p, a)
  }

  /** What the payout loop yields: nothing to pay without winners, a
      panic when the first division is by zero, the shares otherwise. */
  function PayoutOutcome(weights: map<AccountId, real>, totalBet: real, totalWeight: real): Result<map<AccountId, real>, ExecError> {
    if weights == map[] then Ok(map[])
    else if totalWeight == 0.0 then Err(DivisionByZero)
    else Ok(Payouts(weights, totalBet, totalWeight))
  }

  // ------------------------------------------------------- step functions

  function GrabFundsStep(l: Ledger, sender: AccountId, height: BlockHeight): Step {
    var l1 := l.(state := l.state.(receivedFunds := l.state.receivedFunds[sender := height]));
    if sender in l.state.receivedFunds then Step(Err(AlreadyReceivedFunds(sender)), l1)
    else
      var minted := map[sender := FAUCET_AMOUNT];
      Step(Ok(minted), l1.(balances := Credit(l1.balances, minted)))
  }

  function PlaceBetStep(l: Ledger, sender: AccountId, blockTime: Timestamp, guess: U8, amount: real): Step {
    match After(blockTime)
    case Err(e) => Step(Err(TimePanic(e)), l)
    case Ok(g) =>
      if Amount(l.balances, sender) < amount then Step(Err(InsufficientBalance), l)
      else
        var balances := l.balances[sender := Amount(l.balances, sender) - amount];
        var pending := AppendWager(l.state.pendingWagers, g, Wager(sender, guess, amount));
        Step(Ok(map[]), Ledger(l.state.(pendingWagers := pending), balances))
  }

  /** The round a result settles, when it names a valid one. */
  function SettledRound(r: SignedRngResult): Option<GuessTimestamp> {
    match TryFromI64(r.timestamp)
    case Ok(g) => Some(g)
    case Err(_) => None
  }

  function SettleBetStep(l: Ledger, r: SignedRngResult): Step {
    if r.signer.None? then Step(Err(BadSignature), l)
    else if r.signer.value != l.state.rngPublicKey then Step(Err(WrongSigner), l)
    else if SettledRound(r).None? then Step(Err(InvalidTimestamp), l)
    else
      var g := SettledRound(r).value;
      if g !in l.state.pendingWagers then Step(Err(NoPendingWagers), l)
      else
        var ws := l.state.pendingWagers[g];
        var l1 := l.(state := l.state.(pendingWagers := l.state.pendingWagers - {g}));
        var number := r.number % 256;
        var outcome := PayoutOutcome(WinningWeights(ws, number), TotalBet(ws), WinningTotal(ws, number));
        Step(outcome, if outcome.Ok? then l1.(balances := Credit(l1.balances, outcome.value)) else l1)
  }

  function ExecuteStep(l: Ledger, sender: AccountId, height: BlockHeight, blockTime: Timestamp, msg: GuessMessage): Step {
    match msg
    case GrabFunds => GrabFundsStep(l, sender, height)
    case PlaceBet(guess, amount) => PlaceBetStep(l, sender, blockTime, guess, amount)
    case SettleBet(r) => SettleBetStep(l, r)
  }

  // ------------------------------------------------------------- the loop

  /** The first loop of `SettleBet`: one pass over the round's wagers that
      keeps the running total, the smallest distance so far, and the
      per-account weights and total weight at that distance. */
  method Tally(ws: seq<Wager>, number: U8) returns (totalBet: real, weights: map<AccountId, real>, distance: U8, totalWeight: real)
    ensures totalBet == TotalBet(ws)
    ensures distance == MinDistance(ws, number)
    ensures weights == WinningWeights(ws, number)
    ensures totalWeight == WinningTotal(ws, number)
  {
    totalBet, weights, distance, totalWeight := 0.0, map[], 255, 0.0;
    for i := 0 to |ws|
      invariant totalBet == TotalBet(ws[..i])
      invariant distance == MinDistance(ws[..i], number)
      invariant weights == WeightsAt(ws[..i], number, distance)
      invariant totalWeight == TotalAt(ws[..i], number, distance)
    {
      var w := ws[i];
      assert ws[..i + 1][..i] == ws[..i];
      totalBet := totalBet + w.amount;
      var d := AbsDiff(w.guess, number);
      if d < distance {
        MinDistanceIsMinimum(ws[..i], number);
        NothingAtUnusedDistance(ws[..i], number, d);
        distance := d;
        weights := map[];
        totalWeight := 0.0;
      } else if d > distance {
        continue;
      }
      weights := weights[w.account := Amount(weights, w.account) + w.amount];
      totalWeight := totalWeight + w.amount;
    }
    assert ws[..|ws|] == ws;
  }

  // -------------------------------------------------- execution context

  /** `kolme::ExecutionContext` as the game sees it: the app state it may
      change, the asset balances, and the sender, height and time of the
      block being executed. */
  class ExecutionContext {
    var state: GuessState
    var balances: map<AccountId, real>
    const sender: AccountId
    const blockHeight: BlockHeight
    const blockTime: Timestamp

    ghost function Snapshot(): Ledger
      reads this
    {
      Ledger(state, balances)
    }

    constructor (state: GuessState, balances: map<AccountId, real>, sender: AccountId, blockHeight: BlockHeight, blockTime: Timestamp)
      ensures Snapshot() == Ledger(state, balances)
      ensures this.sender == sender && this.blockHeight == blockHeight && this.blockTime == blockTime
    {
      this.state := state;
      this.balances := balances;
      this.sender := sender;
      this.blockHeight := blockHeight;
      this.blockTime := blockTime;
    }

    /** `mint_asset`. */
    method Mint(a: AccountId, x: real)
      modifies this
      ensures state == old(state)
      ensures balances == old(balances)[a := Amount(old(balances), a) + x]
    {
      balances := balances[a := Amount(balances, a) + x];
    }

    /** `burn_asset`: refuses to burn more than the balance. */
    method Burn(a: AccountId, x: real) returns (ok: bool)
      modifies this
      ensures state == old(state)
      ensures ok <==> x <= Amount(old(balances), a)
      ensures balances == if ok then old(balances)[a := Amount(old(balances), a) - x] else old(balances)
    {
      ok := x <= Amount(balances, a);
      if ok {
        balances := balances[a := Amount(balances, a) - x];
      }
    }

    method GrabFunds() returns (r: Result<map<AccountId, real>, ExecError>)
      modifies this
      ensures Step(r, Snapshot()) == GrabFundsStep(old(Snapshot()), sender, blockHeight)
    {
      var had := sender in state.receivedFunds;
      state := state.(receivedFunds := state.receivedFunds[sender := blockHeight]);
      if had {
        return Err(AlreadyReceivedFunds(sender));
      }
      Mint(sender, FAUCET_AMOUNT);
      MapsEqual(balances, Credit(old(balances), map[sender := FAUCET_AMOUNT]));
      r := Ok(map[sender := FAUCET_AMOUNT]);
    }

    method PlaceBet(guess: U8, amount: real) returns (r: Result<map<AccountId, real>, ExecError>)
      modifies this
      ensures Step(r, Snapshot()) == PlaceBetStep(old(Snapshot()), sender, blockTime, guess, amount)
    {
      var timestamp := After(blockTime);
      if timestamp.Err? {
        return Err(TimePanic(timestamp.error));
      }
      var ok := Burn(sender, amount);
      if !ok {
        return Err(InsufficientBalance);
      }
      var g := timestamp.value;
      var bucket := if g in state.pendingWagers then state.pendingWagers[g] else [];
      state := state.(pendingWagers := state.pendingWagers[g := bucket + [Wager(sender, guess, amount)]]);
      r := Ok(map[]);
    }

    method SettleBet(result: SignedRngResult) returns (r: Result<map<AccountId, real>, ExecError>)
      modifies this
      ensures Step(r, Snapshot()) == SettleBetStep(old(Snapshot()), result)
    {
      if result.signer.None? {
        return Err(BadSignature);
      }
      if result.signer.value != state.rngPublicKey {
        return Err(WrongSigner);
      }
      var round := TryFromI64(result.timestamp);
      if round.Err? {
        return Err(InvalidTimestamp);
      }
      var g := round.value;
      if g !in state.pendingWagers {
        return Err(NoPendingWagers);
      }
      var wagers := state.pendingWagers[g];
      state := state.(pendingWagers := state.pendingWagers - {g});
      var number: U8 := result.number % 256;
      var totalBet, weights, distance, totalWeight := Tally(wagers, number);
      r := PayWinners(totalBet, weights, totalWeight);
    }

    /** The second loop of `SettleBet`: mint each winner's share of the pot.
        With winners whose stakes sum to zero, the first division panics
        before anything is minted. */
    method PayWinners(totalBet: real, weights: map<AccountId, real>, totalWeight: real) returns (r: Result<map<AccountId, real>, ExecError>)
      modifies this
      ensures state == old(state)
      ensures r == PayoutOutcome(weights, totalBet, totalWeight)
      ensures balances == if r.Ok? then Credit(old(balances), r.value) else old(balances)
    {
      var remaining, winnings := weights, map[];
      CreditNothing(balances);
      while remaining != map[]
        invariant state == old(state)
        invariant forall a :: a in weights <==> a in remaining || a in winnings
        invariant forall a :: a in remaining ==> a !in winnings
        invariant forall a :: a in remaining ==> remaining[a] == weights[a]
        invariant totalWeight != 0.0 ==> forall a :: a in winnings ==> winnings[a] == Share(totalBet, weights[a], totalWeight)
        invariant totalWeight == 0.0 ==> winnings == map[]
        invariant balances == Credit(old(balances), winnings)
        decreases |remaining|
      {
        var a :| a in remaining;
        if totalWeight == 0.0 {
          assert a in weights;
          return Err(DivisionByZero);
        }
        var amount := Share(totalBet, remaining[a], totalWeight);
        CreditOneMore(old(balances), winnings, a, amount);
        Mint(a, amount);
        winnings := winnings[a := amount];
        assert (remaining - {a}).Keys == remaining.Keys - {a};
        remaining := remaining - {a};
      }
      PaidEveryWinner(totalBet, weights, totalWeight, winnings);
      r := Ok(winnings);
    }

    /** `execute`: dispatch on the message. */
    method Execute(msg: GuessMessage) returns (r: Result<map<AccountId, real>, ExecError>)
      modifies this
      ensures Step(r, Snapshot()) == ExecuteStep(old(Snapshot()), sender, blockHeight, blockTime, msg)
    {
      match msg
      case GrabFunds => r := GrabFunds();
      case PlaceBet(guess, amount) => r := PlaceBet(guess, amount);
      case SettleBet(result) => r := SettleBet(result);
    }
  }

  /** Once every winner is paid, what was paid is the source's payout map. */
  lemma PaidEveryWinner(totalBet: real, weights: map<AccountId, real>, totalWeight: real, winnings: map<AccountId, real>)
    requires forall a :: a in weights <==> a in winnings
    requires totalWeight != 0.0 ==> forall a :: a in winnings ==> winnings[a] == Share(totalBet, weights[a], totalWeight)
    requires totalWeight == 0.0 ==> winnings == map[]
    ensures PayoutOutcome(weights, totalBet, totalWeight) == Ok(winnings)
  {
    if totalWeight == 0.0 {
      assert weights.Keys == {};
    }
    if weights == map[] {
      assert winnings.Keys == {};
    } else {
      MapsEqual(winnings, Payouts(weights, totalBet, totalWeight));
    }
  }

  lemma RestoreEntry(p: map<AccountId, real>, k: AccountId)
    requires k in p
    ensures (p - {k})[k := p[k]] == p
  {
    MapsEqual(p, (p - {k})[k := p[k]]);
  }

  lemma SumCreditStep(b: map<AccountId, real>, p: map<AccountId, real>, k: AccountId)
    requires k in p
    ensures SumValues(Credit(b, p)) == SumValues(Credit(b, p - {k})) + p[k]
  {
    var c := Credit(b, p - {k});
    RestoreEntry(p, k);
    CreditOneMore(b, p - {k}, k, p[k]);
    SumValuesCredit(c, k, p[k]);
  }

  /** Crediting nothing changes nothing. */
  lemma CreditNothing(b: map<AccountId, real>)
    ensures Credit(b, map[]) == b
  {
    MapsEqual(Credit(b, map[]), b);
  }

  /** Crediting one more account extends the credited map by that entry. */
  lemma CreditOneMore(b: map<AccountId, real>, p: map<AccountId, real>, a: AccountId, x: real)
    requires a !in p
    ensures Credit(b, p[a := x]) == Credit(b, p)[a := Amount(Credit(b, p), a) + x]
  {
    MapsEqual(Credit(b, p[a := x]), Credit(b, p)[a := Amount(Credit(b, p), a) + x]);
  }

  /** Crediting a map of amounts adds their sum to the total balance. */
  lemma {:induction false} SumCredit(b: map<AccountId, real>, p: map<AccountId, real>)
    ensures SumValues(Credit(b, p)) == SumValues(b) + SumValues(p)
    decreases |p|
  {
    if p == map[] {
      CreditNothing(b);
    } else {
      var k :| k in p;
      var rest := p - {k};
      assert |rest| < |p| by { assert rest.Keys == p.Keys - {k}; }
      SumCreditStep(b, p, k);
      SumCredit(b, rest);
      SumValuesRemove(p, k);
    }
  }

  // ------------------------------------------------------------ properties

  /** A fresh state has funded nobody and holds no round: every account's
      first faucet request succeeds and no result can be settled. */
  lemma FreshState(rngPublicKey: PublicKey, balances: map<AccountId, real>, sender: AccountId, height: BlockHeight, r: SignedRngResult)
    ensures NewState(rngPublicKey).receivedFunds == map[] && NewState(rngPublicKey).pendingWagers == map[]
    ensures GrabFundsStep(Ledger(NewState(rngPublicKey), balances), sender, height).outcome == Ok(map[sender := FAUCET_AMOUNT])
    ensures SettleBetStep(Ledger(NewState(rngPublicKey), balances), r).outcome.Err?
  {
  }

  /** `GrabFunds` fails exactly for an account already funded; otherwise it
      records the block height and mints exactly 100 to the sender alone. */
  lemma GrabFundsEffect(l: Ledger, sender: AccountId, height: BlockHeight)
    ensures GrabFundsStep(l, sender, height).outcome.Ok? <==> sender !in l.state.receivedFunds
    ensures GrabFundsStep(l, sender, height).after.state
         == l.state.(receivedFunds := l.state.receivedFunds[sender := height])
    ensures sender !in l.state.receivedFunds ==>
      var after := GrabFundsStep(l, sender, height).after;
      Amount(after.balances, sender) == Amount(l.balances, sender) + FAUCET_AMOUNT
      && (forall a :: a != sender ==> Amount(after.balances, a) == Amount(l.balances, a))
      && SumValues(after.balances) == SumValues(l.balances) + FAUCET_AMOUNT
  {
    if sender !in l.state.receivedFunds {
      var minted := map[sender := FAUCET_AMOUNT];
      CreditOneMore(l.balances, map[], sender, FAUCET_AMOUNT);
      CreditNothing(l.balances);
      assert map[][sender := FAUCET_AMOUNT] == minted;
      SumValuesCredit(l.balances, sender, FAUCET_AMOUNT);
    }
  }

  /** The faucet pays an account at most once. */
  lemma GrabFundsOnce(l: Ledger, sender: AccountId, h1: BlockHeight, h2: BlockHeight)
    requires GrabFundsStep(l, sender, h1).outcome.Ok?
    ensures GrabFundsStep(GrabFundsStep(l, sender, h1).after, sender, h2).outcome == Err(AlreadyReceivedFunds(sender))
  {
  }

  /** `PlaceBet` panics before the epoch, fails without change when the
      balance is short, and otherwise burns exactly the stake and appends one
      wager at the end of the next minute's round, touching nothing else. */
  lemma PlaceBetEffect(l: Ledger, sender: AccountId, blockTime: Timestamp, guess: U8, amount: real)
    ensures blockTime < 0 ==> PlaceBetStep(l, sender, blockTime, guess, amount) == Step(Err(TimePanic(BeforeEpoch)), l)
    ensures blockTime >= 0 && Amount(l.balances, sender) < amount
        ==> PlaceBetStep(l, sender, blockTime, guess, amount) == Step(Err(InsufficientBalance), l)
    ensures blockTime >= 0 && amount <= Amount(l.balances, sender) ==>
      var g := After(blockTime).value;
      var step := PlaceBetStep(l, sender, blockTime, guess, amount);
      var old_bucket := if g in l.state.pendingWagers then l.state.pendingWagers[g] else [];
      && step.outcome == Ok(map[])
      && Amount(step.after.balances, sender) == Amount(l.balances, sender) - amount >= 0.0
      && (forall a :: a != sender ==> Amount(step.after.balances, a) == Amount(l.balances, a))
      && step.after.state.receivedFunds == l.state.receivedFunds
      && step.after.state.rngPublicKey == l.state.rngPublicKey
      && step.after.state.pendingWagers[g] == old_bucket + [Wager(sender, guess, amount)]
      && (forall h :: h != g ==> (h in step.after.state.pendingWagers <==> h in l.state.pendingWagers))
      && (forall h :: h != g && h in l.state.pendingWagers ==> step.after.state.pendingWagers[h] == l.state.pendingWagers[h])
  {
  }

  /** A bet moves its stake from the sender's balance into the round's pot:
      balances and that pot together are unchanged. */
  lemma PlaceBetMovesStake(l: Ledger, sender: AccountId, blockTime: Timestamp, guess: U8, amount: real)
    requires PlaceBetStep(l, sender, blockTime, guess, amount).outcome.Ok?
    ensures
      var g := After(blockTime).value;
      var after := PlaceBetStep(l, sender, blockTime, guess, amount).after;
      var before := if g in l.state.pendingWagers then l.state.pendingWagers[g] else [];
      SumValues(after.balances) + TotalBet(after.state.pendingWagers[g]) == SumValues(l.balances) + TotalBet(before)
  {
    var g := After(blockTime).value;
    var w := Wager(sender, guess, amount);
    var before := if g in l.state.pendingWagers then l.state.pendingWagers[g] else [];
    var after := PlaceBetStep(l, sender, blockTime, guess, amount).after;
    assert after.balances == l.balances[sender := Amount(l.balances, sender) - amount];
    assert after.state.pendingWagers == l.state.pendingWagers[g := before + [w]];
    BurnLowersTotal(l.balances, sender, amount);
    AppendRaisesPot(before, w);
  }

  lemma BurnLowersTotal(b: map<AccountId, real>, a: AccountId, x: real)
    ensures SumValues(b[a := Amount(b, a) - x]) == SumValues(b) - x
  {
    SumValuesCredit(b, a, -x);
    assert b[a := Amount(b, a) - x] == b[a := Amount(b, a) + -x];
  }

  lemma AppendRaisesPot(ws: seq<Wager>, w: Wager)
    ensures TotalBet(ws + [w]) == TotalBet(ws) + w.amount
  {
    assert (ws + [w])[..|ws|] == ws;
  }

  /** Only the stored randomness key can settle a round; anything else is
      refused with the state untouched. */
  lemma SettleBetNeedsTrustedSigner(l: Ledger, r: SignedRngResult)
    requires r.signer != Some(l.state.rngPublicKey)
    ensures SettleBetStep(l, r).outcome.Err? && SettleBetStep(l, r).after == l
  {
  }

  /** A result for a round nobody bet on is refused with the state untouched;
      every settlement that gets past that check removes exactly the named
      round, panicking or not. */
  lemma SettleBetRemovesRound(l: Ledger, r: SignedRngResult)
    requires r.signer == Some(l.state.rngPublicKey) && r.timestamp >= 0
    ensures GuessTimestamp(r.timestamp) !in l.state.pendingWagers
        ==> SettleBetStep(l, r) == Step(Err(NoPendingWagers), l)
    ensures GuessTimestamp(r.timestamp) in l.state.pendingWagers ==>
      var after := SettleBetStep(l, r).after;
      && after.state.pendingWagers == l.state.pendingWagers - {GuessTimestamp(r.timestamp)}
      && after.state.receivedFunds == l.state.receivedFunds
      && after.state.rngPublicKey == l.state.rngPublicKey
  {
  }

  /** What a successful settlement of a non-empty round does: the source's
      payout map, credited to the balances. */
  lemma SettleBetPaid(l: Ledger, r: SignedRngResult)
    requires SettleBetStep(l, r).outcome.Ok?
    requires SettledRound(r).Some? && SettledRound(r).value in l.state.pendingWagers
    requires l.state.pendingWagers[SettledRound(r).value] != []
    ensures
      var ws := l.state.pendingWagers[SettledRound(r).value];
      var number := r.number % 256;
      && WinningTotal(ws, number) != 0.0
      && var p := Payouts(WinningWeights(ws, number), TotalBet(ws), WinningTotal(ws, number));
      && SettleBetStep(l, r).outcome.value == p
      && SettleBetStep(l, r).after.balances == Credit(l.balances, p)
  {
    SomeWinner(l.state.pendingWagers[SettledRound(r).value], r.number % 256);
  }

  /** A settlement that succeeds on a non-empty round pays every wager
      closest to `number mod 256` — and no one else — in proportion to its
      stake, hands out the whole pot, and adds exactly the pot to the total
      balance. */
  lemma SettleBetPaysPot(l: Ledger, r: SignedRngResult)
    requires SettleBetStep(l, r).outcome.Ok?
    requires SettledRound(r).Some? && SettledRound(r).value in l.state.pendingWagers
    requires l.state.pendingWagers[SettledRound(r).value] != []
    ensures
      var ws := l.state.pendingWagers[SettledRound(r).value];
      var number := r.number % 256;
      var paid := SettleBetStep(l, r).outcome.value;
      && (forall a :: a in paid <==> exists i :: 0 <= i < |ws| && ws[i].account == a
                                      && forall j :: 0 <= j < |ws| ==> Distance(ws[i], number) <= Distance(ws[j], number))
      && (forall a :: a in paid ==> paid[a] == Share(TotalBet(ws), Amount(WinningWeights(ws, number), a), WinningTotal(ws, number)))
      && SumValues(paid) == TotalBet(ws)
      && SumValues(SettleBetStep(l, r).after.balances) == SumValues(l.balances) + TotalBet(ws)
  {
    var ws := l.state.pendingWagers[SettledRound(r).value];
    var number := r.number % 256;
    SettleBetPaid(l, r);
    var p := Payouts(WinningWeights(ws, number), TotalBet(ws), WinningTotal(ws, number));
    PayoutsGoToClosest(ws, number);
    SettlementConservesPot(ws, number);
    SumCredit(l.balances, p);
  }

  /** The source's settlement panics on the concrete round of the finding:
      a trusted result for a round whose only wager staked 0. */
  lemma ZeroStakeSettlementPanics(l: Ledger, r: SignedRngResult, a: AccountId, guess: U8)
    requires r.signer == Some(l.state.rngPublicKey) && r.timestamp >= 0
    requires GuessTimestamp(r.timestamp) in l.state.pendingWagers
    requires l.state.pendingWagers[GuessTimestamp(r.timestamp)] == [Wager(a, guess, 0.0)]
    ensures SettleBetStep(l, r).outcome == Err(DivisionByZero)
  {
    ZeroStakeRoundDividesByZero(a, guess, r.number % 256);
  }

  /** `SettleBet` with the corrected payout rule: where the source panics
      dividing by zero, the round's pot is split equally among its winners
      instead; everywhere else it is the source's step. */
  function CorrectedSettleBetStep(l: Ledger, r: SignedRngResult): Step {
    var s := SettleBetStep(l, r);
    if s.outcome == Err(DivisionByZero) && SettledRound(r).Some? && SettledRound(r).value in l.state.pendingWagers then
      var ws := l.state.pendingWagers[SettledRound(r).value];
      var number := r.number % 256;
      var p := GuardedPayouts(WinningWeights(ws, number), TotalBet(ws), WinningTotal(ws, number));
      Step(Ok(p), s.after.(balances := Credit(s.after.balances, p)))
    else s
  }

  /** The corrected step never divides by zero, and wherever the source
      does not, the two are the same. */
  lemma CorrectedSettleBetAgrees(l: Ledger, r: SignedRngResult)
    ensures SettleBetStep(l, r).outcome != Err(DivisionByZero) ==> CorrectedSettleBetStep(l, r) == SettleBetStep(l, r)
    ensures CorrectedSettleBetStep(l, r).outcome != Err(DivisionByZero)
  {
  }

  /** With the corrected rule, every trusted result for a pending round
      settles it: the round is removed, the payouts add up to its pot, and
      total balances rise by exactly the pot. */
  lemma CorrectedSettleBetPaysPot(l: Ledger, r: SignedRngResult)
    requires r.signer == Some(l.state.rngPublicKey)
    requires SettledRound(r).Some? && SettledRound(r).value in l.state.pendingWagers
    ensures
      var ws := l.state.pendingWagers[SettledRound(r).value];
      var step := CorrectedSettleBetStep(l, r);
      && step.outcome.Ok?
      && step.after.state.pendingWagers == l.state.pendingWagers - {SettledRound(r).value}
      && SumValues(step.outcome.value) == TotalBet(ws)
      && SumValues(step.after.balances) == SumValues(l.balances) + TotalBet(ws)
  {
    var ws := l.state.pendingWagers[SettledRound(r).value];
    var number := r.number % 256;
    if ws == [] {
      CreditNothing(l.balances);
      assert WinningWeights(ws, number) == map[];
    } else if WinningTotal(ws, number) != 0.0 {
      SettleBetPaysPot(l, r);
    } else {
      SomeWinner(ws, number);
      var p := GuardedPayouts(WinningWeights(ws, number), TotalBet(ws), WinningTotal(ws, number));
      GuardedSettlementConservesPot(ws, number);
      SumCredit(l.balances, p);
    }
  }

  /** The corrected payout rule agrees with the source's whenever the
      source does not panic. */
  lemma GuardedAgreesWithSource(weights: map<AccountId, real>, totalBet: real, totalWeight: real)
    requires PayoutOutcome(weights, totalBet, totalWeight).Ok?
    ensures PayoutOutcome(weights, totalBet, totalWeight).value == GuardedPayouts(weights, totalBet, totalWeight)
  {
    if weights == map[] {
      assert GuardedPayouts(weights, totalBet, totalWeight).Keys == {};
    }
  }
}
