/** The game's on-chain state (guess-game/src/state.rs) and its Merkle
    serialization, which steps a serializer or deserializer cursor through
    the fields one by one. */
module State {
  import opened Common
  import opened Time

  type AccountId = nat
  type BlockHeight = nat

  /** A public key; its bytes are opaque to the game. */
  datatype PublicKey = PublicKey(bytes: seq<bv8>)

  /** One bet: `guess` is a `u8`, so every stored guess lies in 0..255. */
  datatype Wager = Wager(account: AccountId, guess: U8, amount: real)

  /** `received_funds` maps an account to the one block height it was funded
      at; `pending_wagers` maps a round to its wagers in arrival order. */
  datatype GuessState = GuessState(
    rngPublicKey: PublicKey,
    receivedFunds: map<AccountId, BlockHeight>,
    pendingWagers: map<GuessTimestamp, seq<Wager>>)

  /** One stored value in a Merkle node. The storage library's own codecs
      for keys, maps, numbers and decimals are represented by the typed
      value they carry, so each field codec round-trips by construction. */
  datatype Item =
    | PublicKeyItem(key: PublicKey)
    | ReceivedFundsItem(funds: map<AccountId, BlockHeight>)
    | PendingWagersItem(wagers: map<GuessTimestamp, seq<Wager>>)
    | AccountItem(account: AccountId)
    | U8Item(byte: U8)
    | DecimalItem(decimal: real)

  datatype SerialError = UnexpectedItem(position: nat) | EndOfInput

  /** The fields of a state, in the order `merkle_serialize` stores them. */
  function GuessStateItems(s: GuessState): seq<Item> {
    [PublicKeyItem(s.rngPublicKey), ReceivedFundsItem(s.receivedFunds), PendingWagersItem(s.pendingWagers)]
  }

  /** The fields of a wager, in the order `merkle_serialize` stores them. */
  function WagerItems(w: Wager): seq<Item> {
    [AccountItem(w.account), U8Item(w.guess), DecimalItem(w.amount)]
  }

  /** `MerkleSerializer`: an append-only list of stored values. */
  class MerkleSerializer {
    var items: seq<Item>

    constructor ()
      ensures items == []
    {
      items := [];
    }

    /** `serializer.store(x)`. */
    method Store(x: Item)
      modifies this
      ensures items == old(items) + [x]
    {
      items := items + [x];
    }
  }

  /** `MerkleDeserializer`: a cursor over stored values. */
  class MerkleDeserializer {
    const items: seq<Item>
    var pos: nat

    constructor (items: seq<Item>)
      ensures this.items == items && pos == 0
    {
      this.items := items;
      pos := 0;
    }

    /** `deserializer.load()`: take the next value, or fail at the end. */
    method Load() returns (r: Result<Item, SerialError>)
      modifies this
      ensures old(pos) < |items| ==> r == Ok(items[old(pos)]) && pos == old(pos) + 1
      ensures old(pos) >= |items| ==> r == Err(EndOfInput) && pos == old(pos)
    {
      if pos < |items| {
        r := Ok(items[pos]);
        pos := pos + 1;
      } else {
        r := Err(EndOfInput);
      }
    }
  }

  /** `MerkleSerialize for GuessState`: rng_public_key, received_funds, pending_wagers. */
  method SerializeGuessState(s: GuessState, ser: MerkleSerializer)
    modifies ser
    ensures ser.items == old(ser.items) + GuessStateItems(s)
  {
    ser.Store(PublicKeyItem(s.rngPublicKey));
    ser.Store(ReceivedFundsItem(s.receivedFunds));
    ser.Store(PendingWagersItem(s.pendingWagers));
  }

  /** Whether the three values from `pos` on have the shapes of a state's fields. */
  predicate GuessStateAt(items: seq<Item>, pos: nat) {
    pos + 3 <= |items| && items[pos].PublicKeyItem?
    && items[pos + 1].ReceivedFundsItem? && items[pos + 2].PendingWagersItem?
  }

  /** `MerkleDeserialize for GuessState`: loads the fields in the order they
      were stored. The version number is accepted and ignored. */
  method DeserializeGuessState(de: MerkleDeserializer, version: nat) returns (r: Result<GuessState, SerialError>)
    modifies de
    ensures r.Ok? <==> GuessStateAt(de.items, old(de.pos))
    ensures r.Ok? ==> de.pos == old(de.pos) + 3 && GuessStateItems(r.value) == de.items[old(de.pos)..old(de.pos) + 3]
  {
    var start := de.pos;
    var a := de.Load();
    if a.Err? { return Err(a.error); }
    if !a.value.PublicKeyItem? { return Err(UnexpectedItem(start)); }
    var b := de.Load();
    if b.Err? { return Err(b.error); }
    if !b.value.ReceivedFundsItem? { return Err(UnexpectedItem(start + 1)); }
    var c := de.Load();
    if c.Err? { return Err(c.error); }
    if !c.value.PendingWagersItem? { return Err(UnexpectedItem(start + 2)); }
    r := Ok(GuessState(a.value.key, b.value.funds, c.value.wagers));
  }

  /** `MerkleSerialize for Wager`: account, guess, amount. */
  method SerializeWager(w: Wager, ser: MerkleSerializer)
    modifies ser
    ensures ser.items == old(ser.items) + WagerItems(w)
  {
    ser.Store(AccountItem(w.account));
    ser.Store(U8Item(w.guess));
    ser.Store(DecimalItem(w.amount));
  }

  predicate WagerAt(items: seq<Item>, pos: nat) {
    pos + 3 <= |items| && items[pos].AccountItem? && items[pos + 1].U8Item? && items[pos + 2].DecimalItem?
  }

  /** `MerkleDeserialize for Wager`: the same three fields in the same order;
      the version number is ignored. */
  method DeserializeWager(de: MerkleDeserializer, version: nat) returns (r: Result<Wager, SerialError>)
    modifies de
    ensures r.Ok? <==> WagerAt(de.items, old(de.pos))
    ensures r.Ok? ==> de.pos == old(de.pos) + 3 && WagerItems(r.value) == de.items[old(de.pos)..old(de.pos) + 3]
  {
    var start := de.pos;
    var a := de.Load();
    if a.Err? { return Err(a.error); }
    if !a.value.AccountItem? { return Err(UnexpectedItem(start)); }
    var b := de.Load();
    if b.Err? { return Err(b.error); }
    if !b.value.U8Item? { return Err(UnexpectedItem(start + 1)); }
    var c := de.Load();
    if c.Err? { return Err(c.error); }
    if !c.value.DecimalItem? { return Err(UnexpectedItem(start + 2)); }
    r := Ok(Wager(a.value.account, b.value.byte, c.value.decimal));
  }

  /** Serializing a state and loading it back, under any version number,
      yields the same state: deserialize after serialize is the identity. */
  method GuessStateRoundTrip(s: GuessState, version: nat) returns (r: Result<GuessState, SerialError>)
    ensures r == Ok(s)
  {
    var ser := new MerkleSerializer();
    SerializeGuessState(s, ser);
    var de := new MerkleDeserializer(ser.items);
    r := DeserializeGuessState(de, version);
    assert GuessStateItems(r.value) == GuessStateItems(s);
  }

  /** The same round trip for a wager. */
  method WagerRoundTrip(w: Wager, version: nat) returns (r: Result<Wager, SerialError>)
    ensures r == Ok(w)
  {
    var ser := new MerkleSerializer();
    SerializeWager(w, ser);
    var de := new MerkleDeserializer(ser.items);
    r := DeserializeWager(de, version);
    assert WagerItems(r.value) == WagerItems(w);
  }
}
