/** The key handling and funds ledger of frontend/src/client.ts. The
    encryption key and the encrypted private key live in `localStorage`;
    the ledger entries are keyed by the hex of the public key derived from
    the private key. The random draws, the key generator, `encrypt`,
    `decrypt` and the broadcast are parameters. Keys are represented by
    their hex text. */
module BrowserClientLedger {
  import opened Common
  import opened JsNumbers
  import opened FundsLedger

  const ENCRYPTION_KEY: string := "encryptionKey"
  const PRIVATE_KEY: string := "privateKey"

  /** `getEncryptionKey` on storage `st`: a stored, non-empty key is reused,
      otherwise the drawn one is stored. */
  function EncryptionKeyOf(st: Storage, drawn: string): (string, Storage) {
    if ENCRYPTION_KEY in st && st[ENCRYPTION_KEY] != "" then (st[ENCRYPTION_KEY], st)
    else (drawn, st[ENCRYPTION_KEY := drawn])
  }

  /** `getPrivateKey` on storage `st`: with no stored (non-empty) encrypted
      key, the generated key is encrypted, stored and returned; otherwise
      the stored one is decrypted, and `None` is a decryption that throws. */
  function PrivateKeyOf(
    st: Storage, encryptionKey: string, generated: string,
    encrypt: (string, string) -> string, decrypt: (string, string) -> Option<string>): (Option<string>, Storage)
  {
    if PRIVATE_KEY in st && st[PRIVATE_KEY] != "" then (decrypt(st[PRIVATE_KEY], encryptionKey), st)
    else (Some(generated), st[PRIVATE_KEY := encrypt(generated, encryptionKey)])
  }

  // ------------------------------------------------------------ properties

  /** The encryption key is created on first use and reused after that. */
  lemma EncryptionKeyOnce(st: Storage, drawn: string, drawn2: string)
    ensures ENCRYPTION_KEY in st && st[ENCRYPTION_KEY] != "" ==> EncryptionKeyOf(st, drawn) == (st[ENCRYPTION_KEY], st)
    ensures !(ENCRYPTION_KEY in st && st[ENCRYPTION_KEY] != "") ==> EncryptionKeyOf(st, drawn).0 == drawn
    ensures drawn != "" ==>
      var (key, after) := EncryptionKeyOf(st, drawn);
      EncryptionKeyOf(after, drawn2) == (key, after)
  {
  }

  /** A new private key is generated and stored only when none is stored;
      a later call, whatever it would have generated, decrypts the stored
      one back to the same key and stores nothing. */
  lemma PrivateKeyReused(
    st: Storage, encryptionKey: string, generated: string, generated2: string,
    encrypt: (string, string) -> string, decrypt: (string, string) -> Option<string>)
    requires !(PRIVATE_KEY in st && st[PRIVATE_KEY] != "")
    requires encrypt(generated, encryptionKey) != ""
    requires decrypt(encrypt(generated, encryptionKey), encryptionKey) == Some(generated)
    ensures
      var (first, after) := PrivateKeyOf(st, encryptionKey, generated, encrypt, decrypt);
      && first == Some(generated)
      && after[PRIVATE_KEY] == encrypt(generated, encryptionKey)
      && PrivateKeyOf(after, encryptionKey, generated2, encrypt, decrypt) == (Some(generated), after)
  {
  }

  /** With a key stored, the stored key is decrypted and nothing is
      written. */
  lemma PrivateKeyStored(
    st: Storage, encryptionKey: string, generated: string,
    encrypt: (string, string) -> string, decrypt: (string, string) -> Option<string>)
    requires PRIVATE_KEY in st && st[PRIVATE_KEY] != ""
    ensures PrivateKeyOf(st, encryptionKey, generated, encrypt, decrypt) == (decrypt(st[PRIVATE_KEY], encryptionKey), st)
  {
  }

  /** The ledger never overwrites the stored keys. */
  lemma KeysNotLedgerEntries(id: string)
    ensures ClaimedKey(id) != ENCRYPTION_KEY && FundsKey(id) != ENCRYPTION_KEY
    ensures ClaimedKey(id) != PRIVATE_KEY && FundsKey(id) != PRIVATE_KEY
  {
    assert ClaimedKey(id)[0] != ENCRYPTION_KEY[0] && FundsKey(id)[0] != ENCRYPTION_KEY[0];
    assert ClaimedKey(id)[0] != PRIVATE_KEY[0] && FundsKey(id)[0] != PRIVATE_KEY[0];
  }

  /** Operations of the ledger for one account leave every entry of any
      other account as it was. */
  lemma OtherAccountsUntouched(st: Storage, id: string, other: string, guess: int, amount: int, broadcast: Action -> bool)
    requires other != id
    ensures
      var after := FundsLedger.ClaimFunds(st, id, broadcast).1;
      HasClaimed(after, other) == HasClaimed(st, other) && Funds(after, other) == Funds(st, other)
    ensures
      var after := FundsLedger.PlaceBet(st, id, guess, amount, broadcast).1;
      HasClaimed(after, other) == HasClaimed(st, other) && Funds(after, other) == Funds(st, other)
  {
    KeysDistinct(other, id);
    KeysDistinct(id, other);
    ClaimFundsSpec(st, id, broadcast);
    PlaceBetSpec(st, id, guess, amount, broadcast);
  }

  /** The browser's `localStorage` as this client sees it, with the public
      key hex fixed once the private key is known. */
  class BrowserClient {
    const publicKey: string
    var storage: Storage

    constructor (publicKey: string, storage: Storage)
      ensures this.publicKey == publicKey && this.storage == storage
    {
      this.publicKey := publicKey;
      this.storage := storage;
    }

    method GetEncryptionKey(drawn: string) returns (key: string)
      modifies this
      ensures (key, storage) == EncryptionKeyOf(old(storage), drawn)
    {
      if ENCRYPTION_KEY in storage && storage[ENCRYPTION_KEY] != "" {
        key := storage[ENCRYPTION_KEY];
      } else {
        key := drawn;
        storage := storage[ENCRYPTION_KEY := key];
      }
    }

    method GetPrivateKey(
      encryptionKey: string, generated: string,
      encrypt: (string, string) -> string, decrypt: (string, string) -> Option<string>) returns (key: Option<string>)
      modifies this
      ensures (key, storage) == PrivateKeyOf(old(storage), encryptionKey, generated, encrypt, decrypt)
    {
      if PRIVATE_KEY !in storage || storage[PRIVATE_KEY] == "" {
        storage := storage[PRIVATE_KEY := encrypt(generated, encryptionKey)];
        return Some(generated);
      }
      key := decrypt(storage[PRIVATE_KEY], encryptionKey);
    }

    method HasClaimedFunds() returns (b: bool)
      ensures b == HasClaimed(storage, publicKey)
    {
      b := ClaimedKey(publicKey) in storage && storage[ClaimedKey(publicKey)] == "true";
    }

    method SetFundsClaimed()
      modifies this
      ensures storage == MarkClaimed(old(storage), publicKey)
    {
      storage := storage[ClaimedKey(publicKey) := "true"];
      var current := ParseInt(GetOr(storage, FundsKey(publicKey), "0"));
      storage := storage[FundsKey(publicKey) := ToString(Add(current, Num(FAUCET_FUNDS)))];
    }

    method GetUserFunds() returns (f: JsNumber)
      ensures f == Funds(storage, publicKey)
    {
      f := ParseInt(GetOr(storage, FundsKey(publicKey), "0"));
    }

    method SubtractFunds(amount: int) returns (r: Result<(), ClientError>)
      modifies this
      ensures
        match Subtract(old(storage), publicKey, amount)
        case Ok(after) => r == Ok(()) && storage == after
        case Err(e) => r == Err(e) && storage == old(storage)
    {
      var current := GetUserFunds();
      if Less(current, Num(amount)) {
        return Err(InsufficientFunds);
      }
      storage := storage[FundsKey(publicKey) := ToString(Sub(current, Num(amount)))];
      r := Ok(());
    }

    method HasSufficientFunds(amount: int) returns (b: bool)
      ensures b == HasSufficient(storage, publicKey, amount)
    {
      var f := GetUserFunds();
      b := AtLeast(f, Num(amount));
    }

    method ClaimFunds(broadcast: Action -> bool) returns (r: Result<(), ClientError>)
      modifies this
      ensures (r, storage) == FundsLedger.ClaimFunds(old(storage), publicKey, broadcast)
    {
      var claimed := HasClaimedFunds();
      if claimed {
        return Err(AlreadyClaimed);
      }
      if !broadcast(GrabFundsAction) {
        return Err(BroadcastFailed);
      }
      SetFundsClaimed();
      r := Ok(());
    }

    method PlaceBet(guess: int, amount: int, broadcast: Action -> bool) returns (r: Result<(), ClientError>)
      modifies this
      ensures (r, storage) == FundsLedger.PlaceBet(old(storage), publicKey, guess, amount, broadcast)
    {
      if guess < 0 || guess > 255 {
        return Err(InvalidGuess);
      }
      var sufficient := HasSufficientFunds(amount);
      if !sufficient {
        return Err(InsufficientFunds);
      }
      if !broadcast(PlaceBetAction(guess, IntToString(amount))) {
        return Err(BroadcastFailed);
      }
      r := SubtractFunds(amount);
    }
  }
}
