/** The funds ledger of frontend/src/kolmeclient.ts, keyed by a random user
    key kept in `localStorage` under `'userKey'`. Every operation first
    looks the key up (`getUserKey`) and creates it on first use. The random
    key drawn by `generateRandomUserKey` is the parameter `drawn`; one draw
    serves a whole operation. The broadcast to the chain is the parameter
    `broadcast`, true when it succeeds. */
module KolmeClientLedger {
  import opened Common
  import opened JsNumbers
  import opened FundsLedger

  const USER_KEY: string := "userKey"

  /** `getUserKey` on storage `st`: the key returned and the storage after.
      A stored, non-empty key is reused; otherwise `drawn` is stored along
      with an unclaimed flag and zero funds. */
  function UserKeyOf(st: Storage, drawn: string): (string, Storage) {
    if USER_KEY in st && st[USER_KEY] != "" then (st[USER_KEY], st)
    else (drawn, st[USER_KEY := drawn][ClaimedKey(drawn) := "false"][FundsKey(drawn) := "0"])
  }

  /** `claimFunds`: the user key is created if need be, then the claim. */
  function ClaimFundsOf(st: Storage, drawn: string, broadcast: Action -> bool): (Result<(), ClientError>, Storage) {
    var (id, keyed) := UserKeyOf(st, drawn);
    ClaimFunds(keyed, id, broadcast)
  }

  /** `placeBet`: the guess is checked before the user key is looked up. */
  function PlaceBetOf(st: Storage, drawn: string, guess: int, amount: int, broadcast: Action -> bool): (Result<(), ClientError>, Storage) {
    if guess < 0 || guess > 255 then (Err(InvalidGuess), st)
    else
      var (id, keyed) := UserKeyOf(st, drawn);
      PlaceBet(keyed, id, guess, amount, broadcast)
  }

  /** `shortAddress` of `getCurrentUser`: `slice(0, 6)`, an ellipsis and
      `slice(-4)`, where a slice never reaches past either end. */
  function ShortAddress(hex: string): (r: string)
    ensures |hex| >= 10 ==> |r| == 13 && r[..6] == hex[..6] && r[6..9] == "..." && r[9..] == hex[|hex| - 4..]
    ensures |hex| <= 4 ==> r == hex + "..." + hex
  {
    var head := if |hex| < 6 then hex else hex[..6];
    var tail := if |hex| < 4 then hex else hex[|hex| - 4..];
    head + "..." + tail
  }

  // ------------------------------------------------------------ properties

  /** The first lookup creates the key, with an unclaimed flag and zero
      funds; any lookup after that returns the same key and changes
      nothing. */
  lemma UserKeySpec(st: Storage, drawn: string, drawn2: string)
    ensures !(USER_KEY in st && st[USER_KEY] != "") ==>
      var (id, after) := UserKeyOf(st, drawn);
      id == drawn && !HasClaimed(after, id) && Funds(after, id) == Num(0)
    ensures USER_KEY in st && st[USER_KEY] != "" ==> UserKeyOf(st, drawn) == (st[USER_KEY], st)
    ensures
      var (id, after) := UserKeyOf(st, drawn);
      UserKeyOf(after, drawn) == (id, after)
    ensures drawn != "" ==>
      var (id, after) := UserKeyOf(st, drawn);
      UserKeyOf(after, drawn2) == (id, after)
  {
    KeysDistinct(drawn, drawn);
    UserKeyNotALedgerEntry(drawn);
    if !(USER_KEY in st && st[USER_KEY] != "") {
      var after := UserKeyOf(st, drawn).1;
      assert after[FundsKey(drawn)] == "0";
      assert Funds(after, drawn) == ParseInt("0");
      ParseIntOfToString(Num(0));
      if drawn == "" {
        var again := UserKeyOf(after, drawn).1;
        assert after[USER_KEY] == "" && after[ClaimedKey(drawn)] == "false";
        assert again.Keys == after.Keys;
        assert forall k :: k in after ==> again[k] == after[k];
        assert again == after;
      }
    }
  }

  /** The ledger entries never overwrite the stored user key. */
  lemma UserKeyNotALedgerEntry(id: string)
    ensures ClaimedKey(id) != USER_KEY && FundsKey(id) != USER_KEY
  {
    assert ClaimedKey(id)[0] != USER_KEY[0] && FundsKey(id)[0] != USER_KEY[0];
  }

  /** A rejected bet leaves the stored funds of the user as they were (the
      lookup may still have created the user), and an accepted one lowers
      them by exactly its amount, never below zero. */
  lemma PlaceBetOfSpec(st: Storage, drawn: string, guess: int, amount: int, broadcast: Action -> bool)
    ensures (guess < 0 || guess > 255) ==> PlaceBetOf(st, drawn, guess, amount, broadcast) == (Err(InvalidGuess), st)
    ensures 0 <= guess <= 255 ==>
      var (id, keyed) := UserKeyOf(st, drawn);
      var (r, after) := PlaceBetOf(st, drawn, guess, amount, broadcast);
      && (r.Err? ==> after == keyed)
      && (r.Ok? <==> HasSufficient(keyed, id, amount) && broadcast(PlaceBetAction(guess, IntToString(amount))))
      && (r.Ok? ==> Funds(after, id) == Num(Funds(keyed, id).value - amount) && Funds(after, id).value >= 0)
  {
    var (id, keyed) := UserKeyOf(st, drawn);
    PlaceBetSpec(keyed, id, guess, amount, broadcast);
  }

  /** A claim made once cannot be made again. */
  lemma ClaimFundsOfOnce(st: Storage, drawn: string, broadcast: Action -> bool)
    requires drawn != ""
    requires ClaimFundsOf(st, drawn, broadcast).0.Ok?
    ensures ClaimFundsOf(ClaimFundsOf(st, drawn, broadcast).1, drawn, broadcast).0 == Err(AlreadyClaimed)
  {
    var (id, keyed) := UserKeyOf(st, drawn);
    UserKeySpec(st, drawn, drawn);
    KeysDistinct(id, id);
    UserKeyNotALedgerEntry(id);
    ClaimFundsSpec(keyed, id, broadcast);
    ClaimOnce(keyed, id, broadcast);
    var after := ClaimFundsOf(st, drawn, broadcast).1;
    assert USER_KEY in after && after[USER_KEY] == keyed[USER_KEY];
    assert UserKeyOf(after, drawn) == (id, after);
  }

  /** The browser's `localStorage` as this client sees it. */
  class KolmeClient {
    var storage: Storage

    constructor (storage: Storage)
      ensures this.storage == storage
    {
      this.storage := storage;
    }

    method GetUserKey(drawn: string) returns (key: string)
      modifies this
      ensures (key, storage) == UserKeyOf(old(storage), drawn)
    {
      if USER_KEY in storage && storage[USER_KEY] != "" {
        key := storage[USER_KEY];
      } else {
        key := drawn;
        storage := storage[USER_KEY := key];
        storage := storage[ClaimedKey(key) := "false"];
        storage := storage[FundsKey(key) := "0"];
      }
    }

    method HasClaimedFunds(drawn: string) returns (b: bool)
      modifies this
      ensures storage == UserKeyOf(old(storage), drawn).1
      ensures b == HasClaimed(storage, UserKeyOf(old(storage), drawn).0)
    {
      var key := GetUserKey(drawn);
      b := ClaimedKey(key) in storage && storage[ClaimedKey(key)] == "true";
    }

    method SetFundsClaimed(drawn: string)
      modifies this
      ensures
        var (id, keyed) := UserKeyOf(old(storage), drawn);
        storage == MarkClaimed(keyed, id)
    {
      var key := GetUserKey(drawn);
      storage := storage[ClaimedKey(key) := "true"];
      var current := ParseInt(GetOr(storage, FundsKey(key), "0"));
      storage := storage[FundsKey(key) := ToString(Add(current, Num(FAUCET_FUNDS)))];
    }

    method GetUserFunds(drawn: string) returns (f: JsNumber)
      modifies this
      ensures storage == UserKeyOf(old(storage), drawn).1
      ensures f == Funds(storage, UserKeyOf(old(storage), drawn).0)
    {
      var key := GetUserKey(drawn);
      f := ParseInt(GetOr(storage, FundsKey(key), "0"));
    }

    method SubtractFunds(drawn: string, amount: int) returns (r: Result<(), ClientError>)
      modifies this
      ensures
        var (id, keyed) := UserKeyOf(old(storage), drawn);
        match Subtract(keyed, id, amount)
        case Ok(after) => r == Ok(()) && storage == after
        case Err(e) => r == Err(e) && storage == keyed
    {
      var key := GetUserKey(drawn);
      UserKeySpec(old(storage), drawn, drawn);
      var current := GetUserFunds(drawn);
      if Less(current, Num(amount)) {
        return Err(InsufficientFunds);
      }
      storage := storage[FundsKey(key) := ToString(Sub(current, Num(amount)))];
      r := Ok(());
    }

    method HasSufficientFunds(drawn: string, amount: int) returns (b: bool)
      modifies this
      ensures storage == UserKeyOf(old(storage), drawn).1
      ensures b == HasSufficient(storage, UserKeyOf(old(storage), drawn).0, amount)
    {
      var f := GetUserFunds(drawn);
      b := AtLeast(f, Num(amount));
    }

    method ClaimFunds(drawn: string, broadcast: Action -> bool) returns (r: Result<(), ClientError>)
      modifies this
      ensures (r, storage) == ClaimFundsOf(old(storage), drawn, broadcast)
    {
      var claimed := HasClaimedFunds(drawn);
      UserKeySpec(old(storage), drawn, drawn);
      if claimed {
        return Err(AlreadyClaimed);
      }
      if !broadcast(GrabFundsAction) {
        return Err(BroadcastFailed);
      }
      SetFundsClaimed(drawn);
      r := Ok(());
    }

    method PlaceBet(drawn: string, guess: int, amount: int, broadcast: Action -> bool) returns (r: Result<(), ClientError>)
      modifies this
      ensures (r, storage) == PlaceBetOf(old(storage), drawn, guess, amount, broadcast)
    {
      if guess < 0 || guess > 255 {
        return Err(InvalidGuess);
      }
      var sufficient := HasSufficientFunds(drawn, amount);
      UserKeySpec(old(storage), drawn, drawn);
      if !sufficient {
        return Err(InsufficientFunds);
      }
      if !broadcast(PlaceBetAction(guess, IntToString(amount))) {
        return Err(BroadcastFailed);
      }
      r := SubtractFunds(drawn, amount);
    }
  }
}
