/** The browser-side, optimistic funds ledger that both frontend clients
    keep in `localStorage` (frontend/src/kolmeclient.ts and
    frontend/src/client.ts). An account identifier `id` (a random user key
    in one client, the public-key hex in the other) selects two entries: a
    claimed flag and a funds amount kept as text. */
module FundsLedger {
  import opened Common
  import opened JsNumbers

  /** `localStorage`: text keys to text values. */
  type Storage = map<string, string>

  /** What the faucet adds to the displayed funds. */
  const FAUCET_FUNDS: int := 100

  /** The transactions the clients broadcast to the chain. */
  datatype Action =
    | GrabFundsAction
    | PlaceBetAction(guess: int, amount: string)

  /** The errors the clients throw. */
  datatype ClientError =
    | AlreadyClaimed      // 'Funds have already been claimed for this user'
    | InvalidGuess        // 'Guess must be between 0 and 255'
    | InsufficientFunds   // 'Insufficient funds ...'
    | BroadcastFailed     // the broadcast promise rejected

  /** `localStorage.getItem(k) || fallback`: a missing entry and an empty
      one are both falsy and give the fallback. */
  function GetOr(st: Storage, k: string, fallback: string): string {
    if k in st && st[k] != "" then st[k] else fallback
  }

  function ClaimedKey(id: string): string { "hasClaimedFunds_" + id }

  function FundsKey(id: string): string { "fundsAmount_" + id }

  /** `hasClaimedFunds`: the flag reads exactly `'true'`. */
  predicate HasClaimed(st: Storage, id: string) {
    ClaimedKey(id) in st && st[ClaimedKey(id)] == "true"
  }

  /** `getUserFunds`: the stored amount parsed, `'0'` when there is none. */
  function Funds(st: Storage, id: string): JsNumber {
    ParseInt(GetOr(st, FundsKey(id), "0"))
  }

  /** `hasSufficientFunds(amount)`. */
  predicate HasSufficient(st: Storage, id: string, amount: int) {
    AtLeast(Funds(st, id), Num(amount))
  }

  /** `setFundsClaimed`: raise the flag, then add the faucet amount to the
      funds, whatever the flag said before. */
  function MarkClaimed(st: Storage, id: string): Storage {
    var flagged := st[ClaimedKey(id) := "true"];
    flagged[FundsKey(id) := ToString(Add(Funds(flagged, id), Num(FAUCET_FUNDS)))]
  }

  /** `subtractFunds(amount)`: throws when the funds are below `amount`;
      otherwise stores the difference. */
  function Subtract(st: Storage, id: string, amount: int): Result<Storage, ClientError> {
    var current := Funds(st, id);
    if Less(current, Num(amount)) then Err(InsufficientFunds)
    else Ok(st[FundsKey(id) := ToString(Sub(current, Num(amount)))])
  }

  /** `claimFunds` once the account is known: refuse a second claim before
      broadcasting, broadcast the faucet transaction, then mark the claim. */
  function ClaimFunds(st: Storage, id: string, broadcast: Action -> bool): (Result<(), ClientError>, Storage) {
    if HasClaimed(st, id) then (Err(AlreadyClaimed), st)
    else if !broadcast(GrabFundsAction) then (Err(BroadcastFailed), st)
    else (Ok(()), MarkClaimed(st, id))
  }

  /** `placeBet` once the account is known: check the guess, then the
      funds, broadcast the bet, and subtract its amount. */
  function PlaceBet(st: Storage, id: string, guess: int, amount: int, broadcast: Action -> bool): (Result<(), ClientError>, Storage) {
    if guess < 0 || guess > 255 then (Err(InvalidGuess), st)
    else if !HasSufficient(st, id, amount) then (Err(InsufficientFunds), st)
    else if !broadcast(PlaceBetAction(guess, IntToString(amount))) then (Err(BroadcastFailed), st)
    else
      match Subtract(st, id, amount)
      case Ok(after) => (Ok(()), after)
      case Err(e) => (Err(e), st)
  }

  /** Every entry but `k1` and `k2` is the same in both storages. */
  ghost predicate SameExcept(st: Storage, st': Storage, k1: string, k2: string) {
    forall k :: k != k1 && k != k2 ==> (k in st' <==> k in st) && (k in st ==> st'[k] == st[k])
  }

  // ------------------------------------------------------------ properties

  /** The two entries of an account are distinct, and distinct accounts
      have distinct entries. */
  lemma KeysDistinct(id1: string, id2: string)
    ensures ClaimedKey(id1) != FundsKey(id2)
    ensures ClaimedKey(id1) == ClaimedKey(id2) ==> id1 == id2
    ensures FundsKey(id1) == FundsKey(id2) ==> id1 == id2
  {
    assert ClaimedKey(id1)[0] != FundsKey(id2)[0];
    assert ClaimedKey(id1)[16..] == id1 && ClaimedKey(id2)[16..] == id2;
    assert FundsKey(id1)[12..] == id1 && FundsKey(id2)[12..] == id2;
  }

  /** An account nobody has stored funds for has 0. */
  lemma FundsDefault(st: Storage, id: string)
    requires FundsKey(id) !in st || st[FundsKey(id)] == ""
    ensures Funds(st, id) == Num(0)
  {
    ParseIntOfToString(Num(0));
  }

  /** Marking a claim raises the flag and adds exactly the faucet amount;
      no other entry changes. */
  lemma MarkClaimedEffect(st: Storage, id: string)
    ensures HasClaimed(MarkClaimed(st, id), id)
    ensures Funds(MarkClaimed(st, id), id) == Add(Funds(st, id), Num(FAUCET_FUNDS))
    ensures SameExcept(st, MarkClaimed(st, id), ClaimedKey(id), FundsKey(id))
  {
    KeysDistinct(id, id);
    var flagged := st[ClaimedKey(id) := "true"];
    assert Funds(flagged, id) == Funds(st, id);
    var stored := ToString(Add(Funds(st, id), Num(FAUCET_FUNDS)));
    ParseIntOfToString(Add(Funds(st, id), Num(FAUCET_FUNDS)));
    assert stored != "" by {
      if Add(Funds(st, id), Num(FAUCET_FUNDS)).Num? {
        assert |IntToString(Add(Funds(st, id), Num(FAUCET_FUNDS)).value)| >= 1;
      }
    }
  }

  /** A subtraction goes through exactly when the funds are not below the
      amount (unreadable funds are never below anything); it then leaves
      exactly the difference, never below 0, and touches nothing else. A
      refused one changes nothing. */
  lemma SubtractEffect(st: Storage, id: string, amount: int)
    ensures Subtract(st, id, amount).Ok? <==> !Less(Funds(st, id), Num(amount))
    ensures Subtract(st, id, amount).Err? ==> Subtract(st, id, amount) == Err(InsufficientFunds)
    ensures Subtract(st, id, amount).Ok? ==>
      var after := Subtract(st, id, amount).value;
      && Funds(after, id) == Sub(Funds(st, id), Num(amount))
      && (Funds(st, id).Num? ==> Funds(after, id).value >= 0)
      && SameExcept(st, after, FundsKey(id), FundsKey(id))
  {
    var d := Sub(Funds(st, id), Num(amount));
    ParseIntOfToString(d);
    assert ToString(d) != "" by {
      if d.Num? {
        assert |IntToString(d.value)| >= 1;
      }
    }
  }

  /** With readable funds, a subtraction goes through exactly when
      `hasSufficientFunds` says so. */
  lemma SubtractIffSufficient(st: Storage, id: string, amount: int)
    requires Funds(st, id).Num?
    ensures Subtract(st, id, amount).Ok? <==> HasSufficient(st, id, amount)
  {
    ComparisonsWithNaN(Funds(st, id), Num(amount));
  }

  /** A claim is refused before broadcasting when one was already made; it
      succeeds exactly when none was and the broadcast went through, and
      then the flag is raised and the funds rose by exactly 100. A claim
      that fails changes nothing. */
  lemma ClaimFundsSpec(st: Storage, id: string, broadcast: Action -> bool)
    ensures HasClaimed(st, id) ==> ClaimFunds(st, id, broadcast) == (Err(AlreadyClaimed), st)
    ensures ClaimFunds(st, id, broadcast).0.Ok? <==> !HasClaimed(st, id) && broadcast(GrabFundsAction)
    ensures ClaimFunds(st, id, broadcast).0.Err? ==> ClaimFunds(st, id, broadcast).1 == st
    ensures ClaimFunds(st, id, broadcast).0.Ok? ==>
      var after := ClaimFunds(st, id, broadcast).1;
      && HasClaimed(after, id)
      && Funds(after, id) == Add(Funds(st, id), Num(FAUCET_FUNDS))
      && SameExcept(st, after, ClaimedKey(id), FundsKey(id))
  {
    MarkClaimedEffect(st, id);
  }

  /** A successful claim cannot be repeated. */
  lemma ClaimOnce(st: Storage, id: string, broadcast: Action -> bool)
    requires ClaimFunds(st, id, broadcast).0.Ok?
    ensures ClaimFunds(ClaimFunds(st, id, broadcast).1, id, broadcast).0 == Err(AlreadyClaimed)
  {
    MarkClaimedEffect(st, id);
  }

  /** A bet is accepted exactly when the guess is in 0..=255, the funds
      cover the amount and the broadcast went through; then the funds drop
      by exactly the amount and stay non-negative. A refused bet changes
      nothing, and the guess is checked before the funds. */
  lemma PlaceBetSpec(st: Storage, id: string, guess: int, amount: int, broadcast: Action -> bool)
    ensures (guess < 0 || guess > 255) ==> PlaceBet(st, id, guess, amount, broadcast) == (Err(InvalidGuess), st)
    ensures 0 <= guess <= 255 && !HasSufficient(st, id, amount) ==>
      PlaceBet(st, id, guess, amount, broadcast) == (Err(InsufficientFunds), st)
    ensures PlaceBet(st, id, guess, amount, broadcast).0.Ok? <==>
      0 <= guess <= 255 && HasSufficient(st, id, amount) && broadcast(PlaceBetAction(guess, IntToString(amount)))
    ensures PlaceBet(st, id, guess, amount, broadcast).0.Err? ==> PlaceBet(st, id, guess, amount, broadcast).1 == st
    ensures PlaceBet(st, id, guess, amount, broadcast).0.Ok? ==>
      var after := PlaceBet(st, id, guess, amount, broadcast).1;
      && Funds(after, id) == Num(Funds(st, id).value - amount)
      && Funds(after, id).value >= 0
      && SameExcept(st, after, FundsKey(id), FundsKey(id))
  {
    SubtractEffect(st, id, amount);
  }
}
