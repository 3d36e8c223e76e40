/** Minute buckets for rounds (`GuessTimestamp`, guess-game/src/time.rs).

    A `Timestamp` is modelled by its whole Unix seconds (what `as_second`
    returns), restricted to the range the timestamp library represents. */
module Time {
  import opened Common
  import Digits

  /** Smallest and largest whole second a `Timestamp` can hold. */
  const MIN_SECOND: int := -377705023201
  const MAX_SECOND: int := 253402207200

  type Timestamp = s: int | MIN_SECOND <= s <= MAX_SECOND

  /** Minutes since the Unix epoch; a round is named by the minute it ends at. */
  datatype GuessTimestamp = GuessTimestamp(minutes: U64)

  datatype TimeError =
    | BeforeEpoch      // `after` panics: its `expect` fails
    | OutOfRange       // `Timestamp::from_second(..).unwrap()` panics
    | NegativeValue    // `TryFrom<i64>` returns an error

  /** `GuessTimestamp::after`: the first minute boundary strictly after `t`.
      A pre-epoch `t` makes the source panic; that is the `Err` here. */
  function After(t: Timestamp): (r: Result<GuessTimestamp, TimeError>)
    ensures r.Ok? <==> t >= 0
    ensures r.Err? ==> r.error == BeforeEpoch
    ensures r.Ok? ==> (r.value.minutes - 1) * 60 <= t < r.value.minutes * 60
  {
    if t < 0 then Err(BeforeEpoch) else Ok(GuessTimestamp(t / 60 + 1))
  }

  /** The bucket `after` picks is the integer `t div 60 + 1`: the two bounds
      of its contract pin the minute down uniquely. */
  lemma AfterIsNextMinute(t: Timestamp, g: GuessTimestamp)
    requires After(t) == Ok(g)
    ensures g.minutes == t / 60 + 1
  {
    var m: int := g.minutes;
    var q := t / 60;
    assert q * 60 <= t < q * 60 + 60;
    assert (m - 1) * 60 <= t < m * 60;
    assert (m - 1 - q) * 60 < 60 && (m - 1 - q) * 60 > -60;
  }

  /** A later block never lands in an earlier bucket. */
  lemma AfterMonotone(t1: Timestamp, t2: Timestamp)
    requires 0 <= t1 <= t2
    ensures After(t1).Ok? && After(t2).Ok?
    ensures After(t1).value.minutes <= After(t2).value.minutes
  {
    var a, b := After(t1).value.minutes, After(t2).value.minutes;
    assert (a - 1) * 60 <= t1 <= t2 < b * 60;
    assert (a - 1 - b) * 60 < 0;
  }

  /** Rust's `as i64` on a `u64`: reinterpret the 64 bits as two's complement. */
  function U64AsI64(x: U64): (r: I64)
    ensures I64_MIN <= r < I64_LIMIT && (x - r) % U64_LIMIT == 0
  {
    if x < I64_LIMIT then x else x - U64_LIMIT
  }

  /** `From<&GuessTimestamp> for Timestamp`: `minutes * 60` seconds. The
      product is a `u64` multiplication, modelled with release-build
      wrap-around, then cast with `as i64` and range-checked by `unwrap`. */
  function ToTimestamp(g: GuessTimestamp): (r: Result<Timestamp, TimeError>)
    ensures g.minutes * 60 <= MAX_SECOND ==> r == Ok(g.minutes * 60)
    ensures MAX_SECOND < g.minutes * 60 < I64_LIMIT ==> r == Err(OutOfRange)
  {
    var seconds := U64AsI64((g.minutes * 60) % U64_LIMIT);
    if MIN_SECOND <= seconds <= MAX_SECOND then Ok(seconds) else Err(OutOfRange)
  }

  /** The end of the bucket a block at `t` lands in lies in `(t, t + 60]`,
      and it is representable for every `t` short of the last second. */
  lemma BucketEndBounds(t: Timestamp)
    requires 0 <= t < MAX_SECOND
    ensures After(t).Ok?
    ensures ToTimestamp(After(t).value).Ok?
    ensures t < ToTimestamp(After(t).value).value <= t + 60
  {
    var g := After(t).value;
    AfterIsNextMinute(t, g);
    assert g.minutes * 60 <= t + 60;
    assert MAX_SECOND % 60 == 0;
    assert g.minutes * 60 <= MAX_SECOND;
  }

  /** At the very last representable second the bucket end overflows the
      timestamp range, so converting it panics. */
  lemma BucketEndAtLastSecond()
    ensures After(MAX_SECOND).Ok?
    ensures ToTimestamp(After(MAX_SECOND).value) == Err(OutOfRange)
  {
    var g := After(MAX_SECOND).value;
    AfterIsNextMinute(MAX_SECOND, g);
    assert g.minutes * 60 == MAX_SECOND + 60;
  }

  /** `TryFrom<i64> for GuessTimestamp`: negative values are rejected. */
  function TryFromI64(v: I64): (r: Result<GuessTimestamp, TimeError>)
    ensures r.Ok? <==> v >= 0
    ensures r.Err? ==> r.error == NegativeValue
  {
    if v < 0 then Err(NegativeValue) else Ok(GuessTimestamp(v))
  }

  /** `TryFrom<i64>` keeps the value: every bucket whose minute fits an
      `i64` comes back unchanged, so the conversion loses nothing. */
  lemma TryFromI64Preserves(v: I64, g: GuessTimestamp)
    requires TryFromI64(v) == Ok(g)
    ensures g.minutes == v
  {
  }

  lemma TryFromI64RoundTrip(g: GuessTimestamp)
    requires g.minutes < I64_LIMIT
    ensures TryFromI64(g.minutes) == Ok(g)
  {
  }

  /** `ToMerkleKey`: the key of the inner `u64`. The `u64` codec belongs to
      the storage library, so it is a parameter. */
  function ToMerkleKey(g: GuessTimestamp, encodeU64: U64 -> seq<bv8>): seq<bv8> {
    encodeU64(g.minutes)
  }

  /** `FromMerkleKey`: decode a `u64` and wrap it; a decoding error passes through. */
  function FromMerkleKey(bytes: seq<bv8>, decodeU64: seq<bv8> -> Option<U64>): (r: Option<GuessTimestamp>)
    ensures r.None? <==> decodeU64(bytes).None?
  {
    match decodeU64(bytes)
    case None => None
    case Some(m) => Some(GuessTimestamp(m))
  }

  /** The bucket key round-trips whenever the `u64` key codec does. */
  lemma MerkleKeyRoundTrip(g: GuessTimestamp, encodeU64: U64 -> seq<bv8>, decodeU64: seq<bv8> -> Option<U64>)
    requires forall x: U64 :: decodeU64(encodeU64(x)) == Some(x)
    ensures FromMerkleKey(ToMerkleKey(g, encodeU64), decodeU64) == Some(g)
  {
    assert decodeU64(encodeU64(g.minutes)) == Some(g.minutes);
  }

  /** `Display`: the inner minute count in decimal. */
  function Display(g: GuessTimestamp): (s: string)
    ensures Digits.AllDigits(s) && |s| >= 1
  {
    Digits.NatToString(g.minutes)
  }

  /** Display is readable back: the printed digits denote the minute count,
      so two buckets print alike only when they are the same bucket. */
  lemma DisplayReadsBack(g: GuessTimestamp)
    ensures Digits.StringToNat(Display(g)) == g.minutes
  {
    Digits.StringToNatOfNatToString(g.minutes);
  }
}
