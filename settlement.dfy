/** What `SettleBet` computes from one round's wagers (guess-game/src/app.rs),
    stated as functions over the wager sequence. The loops of the source
    are in module Game; these functions are what they are proved against. */
module Settlement {
  import opened Common
  import opened State

  /** `guess.abs_diff(number)`. */
  function Distance(w: Wager, number: U8): U8 {
    AbsDiff(w.guess, number)
  }

  /** `total_bet`: the sum of every stake in the round. */
  function TotalBet(ws: seq<Wager>): real {
    if ws == [] then 0.0 else TotalBet(ws[..|ws| - 1]) + ws[|ws| - 1].amount
  }

  /** `winning_distance`: the smallest distance, starting from `u8::MAX`. */
  function MinDistance(ws: seq<Wager>, number: U8): U8 {
    if ws == [] then 255
    else
      var d := MinDistance(ws[..|ws| - 1], number);
      var e := Distance(ws[|ws| - 1], number);
      if e < d then e else d
  }

  /** The amount a map records for `a`; an absent entry counts as zero, as
      `entry(..).or_default()` and an empty asset balance do. */
  function Amount(m: map<AccountId, real>, a: AccountId): real {
    if a in m then m[a] else 0.0
  }

  /** Per-account sums of the stakes of the wagers at distance `d`: what
      `winning_weights.entry(account).or_default() += amount` accumulates. */
  function WeightsAt(ws: seq<Wager>, number: U8, d: U8): map<AccountId, real> {
    if ws == [] then map[]
    else
      var m := WeightsAt(ws[..|ws| - 1], number, d);
      var w := ws[|ws| - 1];
      if Distance(w, number) == d then m[w.account := Amount(m, w.account) + w.amount] else m
  }

  /** Sum of the stakes of the wagers at distance `d`. */
  function TotalAt(ws: seq<Wager>, number: U8, d: U8): real {
    if ws == [] then 0.0
    else
      var w := ws[|ws| - 1];
      TotalAt(ws[..|ws| - 1], number, d) + (if Distance(w, number) == d then w.amount else 0.0)
  }

  /** Sum of the stakes one account placed at distance `d`. */
  function AccountTotalAt(ws: seq<Wager>, number: U8, d: U8, a: AccountId): real {
    if ws == [] then 0.0
    else
      var w := ws[|ws| - 1];
      AccountTotalAt(ws[..|ws| - 1], number, d, a)
        + (if Distance(w, number) == d && w.account == a then w.amount else 0.0)
  }

  /** The winners' weights: accounts with a closest wager, and their stakes on it. */
  function WinningWeights(ws: seq<Wager>, number: U8): map<AccountId, real> {
    WeightsAt(ws, number, MinDistance(ws, number))
  }

  /** `total_weight`: the stakes of all closest wagers together. */
  function WinningTotal(ws: seq<Wager>, number: U8): real {
    TotalAt(ws, number, MinDistance(ws, number))
  }

  /** Sum of a map's values. */
  ghost function SumValues(m: map<AccountId, real>): real
    decreases |m|
  {
    if m == map[] then 0.0
    else
      var k :| k in m;
      assert |m - {k}| < |m| by { assert (m - {k}).Keys == m.Keys - {k}; }
      m[k] + SumValues(m - {k})
  }

  /** One winner's payout: `total_bet * weight / total_weight`. */
  function Share(totalBet: real, weight: real, totalWeight: real): real
    requires totalWeight != 0.0
  {
    totalBet * weight / totalWeight
  }

  /** The payout of each winner. */
  function Payouts(weights: map<AccountId, real>, totalBet: real, totalWeight: real): (p: map<AccountId, real>)
    requires totalWeight != 0.0
    ensures p.Keys == weights.Keys
  {
    map a | a in weights :: Share(totalBet, weights[a], totalWeight)
  }

  /** The case in which the payout loop divides by zero: there are winners,
      yet their stakes sum to zero. */
  predicate DividesByZero(weights: map<AccountId, real>, totalWeight: real) {
    weights != map[] && totalWeight == 0.0
  }

  /** Corrected payout rule: as the source when the winners staked something;
      when they staked nothing in all, the pot is split equally among them. */
  function GuardedPayouts(weights: map<AccountId, real>, totalBet: real, totalWeight: real): (p: map<AccountId, real>)
    ensures p.Keys == weights.Keys
  {
    if totalWeight != 0.0 then Payouts(weights, totalBet, totalWeight)
    else map a | a in weights :: totalBet / (|weights| as real)
  }

  // ---------------------------------------------------------------- lemmas

  /** `MinDistance` is a lower bound of every distance and, for a non-empty
      round, is reached by some wager. */
  lemma {:induction false} MinDistanceIsMinimum(ws: seq<Wager>, number: U8)
    ensures forall i :: 0 <= i < |ws| ==> MinDistance(ws, number) <= Distance(ws[i], number)
    ensures ws != [] ==> exists i :: 0 <= i < |ws| && Distance(ws[i], number) == MinDistance(ws, number)
  {
    if ws != [] {
      var init := ws[..|ws| - 1];
      MinDistanceIsMinimum(init, number);
      assert forall i :: 0 <= i < |init| ==> init[i] == ws[i];
      if Distance(ws[|ws| - 1], number) >= MinDistance(init, number) && init != [] {
        var i :| 0 <= i < |init| && Distance(init[i], number) == MinDistance(init, number);
        assert Distance(ws[i], number) == MinDistance(ws, number);
      }
    }
  }

  /** An account has a weight at distance `d` exactly when it placed a wager there. */
  lemma {:induction false} WeightsAtKeys(ws: seq<Wager>, number: U8, d: U8, a: AccountId)
    ensures a in WeightsAt(ws, number, d)
        <==> exists i :: 0 <= i < |ws| && ws[i].account == a && Distance(ws[i], number) == d
  {
    if ws != [] {
      var init := ws[..|ws| - 1];
      WeightsAtKeys(init, number, d, a);
      assert forall i :: 0 <= i < |init| ==> init[i] == ws[i];
      if a in WeightsAt(ws, number, d) && a !in WeightsAt(init, number, d) {
        assert ws[|ws| - 1].account == a && Distance(ws[|ws| - 1], number) == d;
      }
    }
  }

  /** An account's weight is the sum of the stakes of its own wagers at distance `d`. */
  lemma {:induction false} WeightsAtValue(ws: seq<Wager>, number: U8, d: U8, a: AccountId)
    ensures Amount(WeightsAt(ws, number, d), a) == AccountTotalAt(ws, number, d, a)
  {
    if ws != [] {
      WeightsAtValue(ws[..|ws| - 1], number, d, a);
    }
  }

  /** Nothing lies at a distance no wager has. */
  lemma {:induction false} NothingAtUnusedDistance(ws: seq<Wager>, number: U8, d: U8)
    requires forall i :: 0 <= i < |ws| ==> Distance(ws[i], number) != d
    ensures WeightsAt(ws, number, d) == map[]
    ensures TotalAt(ws, number, d) == 0.0
  {
    if ws != [] {
      var init := ws[..|ws| - 1];
      assert forall i :: 0 <= i < |init| ==> init[i] == ws[i];
      NothingAtUnusedDistance(init, number, d);
    }
  }

  /** The winners are exactly the accounts that placed a closest wager. */
  lemma WinnersAreClosest(ws: seq<Wager>, number: U8, a: AccountId)
    ensures a in WinningWeights(ws, number)
        <==> exists i :: 0 <= i < |ws| && ws[i].account == a
               && forall j :: 0 <= j < |ws| ==> Distance(ws[i], number) <= Distance(ws[j], number)
  {
    var d := MinDistance(ws, number);
    MinDistanceIsMinimum(ws, number);
    WeightsAtKeys(ws, number, d, a);
    if a in WinningWeights(ws, number) {
      var i :| 0 <= i < |ws| && ws[i].account == a && Distance(ws[i], number) == d;
      assert forall j :: 0 <= j < |ws| ==> Distance(ws[i], number) <= Distance(ws[j], number);
    }
    if exists i :: 0 <= i < |ws| && ws[i].account == a
         && forall j :: 0 <= j < |ws| ==> Distance(ws[i], number) <= Distance(ws[j], number) {
      var i :| 0 <= i < |ws| && ws[i].account == a
         && forall j :: 0 <= j < |ws| ==> Distance(ws[i], number) <= Distance(ws[j], number);
      var k :| 0 <= k < |ws| && Distance(ws[k], number) == d;
      assert Distance(ws[i], number) <= Distance(ws[k], number);
    }
  }

  /** A non-empty round has at least one winner. */
  lemma SomeWinner(ws: seq<Wager>, number: U8)
    requires ws != []
    ensures WinningWeights(ws, number) != map[]
  {
    MinDistanceIsMinimum(ws, number);
    var i :| 0 <= i < |ws| && Distance(ws[i], number) == MinDistance(ws, number);
    WeightsAtKeys(ws, number, MinDistance(ws, number), ws[i].account);
  }

  lemma {:induction false} SumValuesRemove(m: map<AccountId, real>, k: AccountId)
    requires k in m
    ensures SumValues(m) == m[k] + SumValues(m - {k})
    decreases |m|
  {
    var j :| j in m && SumValues(m) == m[j] + SumValues(m - {j});
    if j != k {
      assert (m - {j}).Keys == m.Keys - {j};
      assert (m - {k}).Keys == m.Keys - {k};
      SumValuesRemove(m - {j}, k);
      SumValuesRemove(m - {k}, j);
      assert m - {j} - {k} == m - {k} - {j};
    }
  }

  /** Adding `x` to one account's entry adds `x` to the sum. */
  lemma SumValuesCredit(m: map<AccountId, real>, a: AccountId, x: real)
    ensures SumValues(m[a := Amount(m, a) + x]) == SumValues(m) + x
  {
    var m' := m[a := Amount(m, a) + x];
    SumValuesRemove(m', a);
    assert m' - {a} == m - {a};
    if a in m {
      SumValuesRemove(m, a);
    } else {
      assert m - {a} == m;
    }
  }

  /** The per-account weights add up to the total weight. */
  lemma {:induction false} WeightsSumToTotal(ws: seq<Wager>, number: U8, d: U8)
    ensures SumValues(WeightsAt(ws, number, d)) == TotalAt(ws, number, d)
  {
    if ws != [] {
      var w := ws[|ws| - 1];
      WeightsSumToTotal(ws[..|ws| - 1], number, d);
      if Distance(w, number) == d {
        SumValuesCredit(WeightsAt(ws[..|ws| - 1], number, d), w.account, w.amount);
      }
    }
  }

  /** Extensionality of maps, spelled out for the solver. */
  lemma MapsEqual(m1: map<AccountId, real>, m2: map<AccountId, real>)
    requires m1.Keys == m2.Keys
    requires forall a :: a in m1 ==> m1[a] == m2[a]
    ensures m1 == m2
  {
  }

  /** The value `c` for every key of `m`. */
  function Constant(m: map<AccountId, real>, c: real): (s: map<AccountId, real>)
    ensures s.Keys == m.Keys
  {
    map a | a in m :: c
  }

  /** `ks` lists every key of `m` exactly once. */
  predicate Enumerates(ks: seq<AccountId>, m: map<AccountId, real>) {
    (forall i, j :: 0 <= i < j < |ks| ==> ks[i] != ks[j])
    && (forall i :: 0 <= i < |ks| ==> ks[i] in m)
    && (forall a :: a in m ==> a in ks)
  }

  /** Sum of the values of `m` at the keys `ks`, in that order. */
  function SumOver(m: map<AccountId, real>, ks: seq<AccountId>): real
    requires forall i :: 0 <= i < |ks| ==> ks[i] in m
  {
    if ks == [] then 0.0 else SumOver(m, ks[..|ks| - 1]) + m[ks[|ks| - 1]]
  }

  /** Some enumeration of the keys of any map. */
  ghost function Enumeration(m: map<AccountId, real>): (ks: seq<AccountId>)
    ensures Enumerates(ks, m)
    decreases |m|
  {
    if m == map[] then []
    else
      var k :| k in m;
      assert |m - {k}| < |m| by { assert (m - {k}).Keys == m.Keys - {k}; }
      var rest := Enumeration(m - {k});
      rest + [k]
  }

  /** Two maps that agree on `ks` sum to the same over `ks`. */
  lemma {:induction false} SumOverAgree(m1: map<AccountId, real>, m2: map<AccountId, real>, ks: seq<AccountId>)
    requires forall i :: 0 <= i < |ks| ==> ks[i] in m1 && ks[i] in m2 && m1[ks[i]] == m2[ks[i]]
    ensures SumOver(m1, ks) == SumOver(m2, ks)
  {
    if ks != [] {
      SumOverAgree(m1, m2, ks[..|ks| - 1]);
    }
  }

  /** Summing along any enumeration of the keys gives `SumValues`. */
  lemma {:induction false} SumValuesAlong(m: map<AccountId, real>, ks: seq<AccountId>)
    requires Enumerates(ks, m)
    ensures SumValues(m) == SumOver(m, ks)
    decreases |ks|
  {
    if ks == [] {
      assert forall a :: a !in m;
      assert m.Keys == {};
    } else {
      var n := |ks| - 1;
      var k := ks[n];
      var init := ks[..n];
      assert Enumerates(init, m - {k}) by {
        forall a | a in m - {k}
          ensures a in init
        {
          assert a in ks;
          var i :| 0 <= i < |ks| && ks[i] == a;
          assert i != n;
          assert init[i] == a;
        }
      }
      SumValuesRemove(m, k);
      SumValuesAlong(m - {k}, init);
      SumOverAgree(m - {k}, m, init);
    }
  }

  lemma {:induction false} SumValuesConstant(m: map<AccountId, real>, c: real)
    ensures SumValues(Constant(m, c)) == c * (|m| as real)
    decreases |m|
  {
    if m != map[] {
      var k :| k in m;
      var rest := m - {k};
      assert rest.Keys == m.Keys - {k};
      assert |rest| == |m| - 1 by { assert |rest.Keys| == |m.Keys| - 1; }
      SumValuesRemove(Constant(m, c), k);
      MapsEqual(Constant(m, c) - {k}, Constant(rest, c));
      SumValuesConstant(rest, c);
      assert c + c * (|rest| as real) == c * (|m| as real);
    } else {
      assert Constant(m, c) == map[];
    }
  }

  /** Shares of two weights add up to the share of their sum. */
  lemma ShareAdds(totalBet: real, x: real, y: real, totalWeight: real)
    requires totalWeight != 0.0
    ensures Share(totalBet, x, totalWeight) + Share(totalBet, y, totalWeight) == Share(totalBet, x + y, totalWeight)
  {
  }

  /** The share of the whole weight is the whole pot. */
  lemma ShareOfWhole(totalBet: real, totalWeight: real)
    requires totalWeight != 0.0
    ensures Share(totalBet, totalWeight, totalWeight) == totalBet
  {
  }

  lemma {:induction false} SumOverPayouts(weights: map<AccountId, real>, totalBet: real, totalWeight: real, ks: seq<AccountId>)
    requires totalWeight != 0.0
    requires forall i :: 0 <= i < |ks| ==> ks[i] in weights
    ensures SumOver(Payouts(weights, totalBet, totalWeight), ks) == Share(totalBet, SumOver(weights, ks), totalWeight)
  {
    if ks != [] {
      var n := |ks| - 1;
      SumOverPayouts(weights, totalBet, totalWeight, ks[..n]);
      ShareAdds(totalBet, SumOver(weights, ks[..n]), weights[ks[n]], totalWeight);
    }
  }

  /** The payouts hand out exactly the pot, whenever the division is defined
      and the weights sum to the divisor. */
  lemma PayoutsConservePot(weights: map<AccountId, real>, totalBet: real, totalWeight: real)
    requires totalWeight != 0.0 && SumValues(weights) == totalWeight
    ensures SumValues(Payouts(weights, totalBet, totalWeight)) == totalBet
  {
    var ks := Enumeration(weights);
    var p := Payouts(weights, totalBet, totalWeight);
    assert Enumerates(ks, p);
    SumValuesAlong(weights, ks);
    SumValuesAlong(p, ks);
    SumOverPayouts(weights, totalBet, totalWeight, ks);
    ShareOfWhole(totalBet, totalWeight);
  }

  /** In exact arithmetic the source's settlement pays out the whole pot,
      split among the closest wagers, whenever it does not divide by zero. */
  lemma SettlementConservesPot(ws: seq<Wager>, number: U8)
    requires WinningTotal(ws, number) != 0.0
    ensures SumValues(Payouts(WinningWeights(ws, number), TotalBet(ws), WinningTotal(ws, number))) == TotalBet(ws)
  {
    WeightsSumToTotal(ws, number, MinDistance(ws, number));
    PayoutsConservePot(WinningWeights(ws, number), TotalBet(ws), WinningTotal(ws, number));
  }

  /** The accounts paid are exactly those with a closest wager, each paid
      its share of the pot in proportion to its stake on closest wagers. */
  lemma PayoutsGoToClosest(ws: seq<Wager>, number: U8)
    requires WinningTotal(ws, number) != 0.0
    ensures
      var paid := Payouts(WinningWeights(ws, number), TotalBet(ws), WinningTotal(ws, number));
      && (forall a :: a in paid <==> exists i :: 0 <= i < |ws| && ws[i].account == a
                                      && forall j :: 0 <= j < |ws| ==> Distance(ws[i], number) <= Distance(ws[j], number))
      && (forall a :: a in paid ==> paid[a] == Share(TotalBet(ws), Amount(WinningWeights(ws, number), a), WinningTotal(ws, number)))
  {
    forall a
      ensures a in WinningWeights(ws, number)
          <==> exists i :: 0 <= i < |ws| && ws[i].account == a
                 && forall j :: 0 <= j < |ws| ==> Distance(ws[i], number) <= Distance(ws[j], number)
    {
      WinnersAreClosest(ws, number, a);
    }
  }

  /** A round whose only wager has stake zero makes the source divide by
      zero: a concrete input for the finding. */
  lemma ZeroStakeRoundDividesByZero(a: AccountId, guess: U8, number: U8)
    ensures DividesByZero(WinningWeights([Wager(a, guess, 0.0)], number), WinningTotal([Wager(a, guess, 0.0)], number))
  {
    var ws := [Wager(a, guess, 0.0)];
    assert ws[..0] == [];
    var d := Distance(ws[0], number);
    assert MinDistance(ws, number) == d;
    assert WeightsAt(ws, number, d) == map[a := 0.0];
    assert TotalAt(ws, number, d) == 0.0;
  }

  /** The equal split of the corrected rule hands out exactly the pot. */
  lemma EqualSplitConservesPot(weights: map<AccountId, real>, totalBet: real)
    requires weights != map[]
    ensures SumValues(GuardedPayouts(weights, totalBet, 0.0)) == totalBet
  {
    var n := |weights| as real;
    assert n != 0.0 by {
      var k :| k in weights;
      assert k in weights.Keys;
    }
    MapsEqual(GuardedPayouts(weights, totalBet, 0.0), Constant(weights, totalBet / n));
    SumValuesConstant(weights, totalBet / n);
  }

  /** With the corrected rule every round, empty or not, pays out exactly its pot. */
  lemma GuardedSettlementConservesPot(ws: seq<Wager>, number: U8)
    ensures SumValues(GuardedPayouts(WinningWeights(ws, number), TotalBet(ws), WinningTotal(ws, number))) == TotalBet(ws)
  {
    var weights, tb, tw := WinningWeights(ws, number), TotalBet(ws), WinningTotal(ws, number);
    if tw != 0.0 {
      SettlementConservesPot(ws, number);
    } else if ws == [] {
      assert GuardedPayouts(weights, tb, tw) == map[];
    } else {
      SomeWinner(ws, number);
      EqualSplitConservesPot(weights, tb);
    }
  }
}
