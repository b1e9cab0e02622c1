/**
 * What `ReelService.calculate_payout` adds up: `bet × run length × multiplier`
 * for every entry of the win dictionary, taken in row-number order.
 */
module Payouts {
  import opened SlotTypes

  /** Every recorded symbol can be looked up in the symbol table. */
  predicate KnownSymbols(wins: WinData, table: map<string, real>)
  {
    forall k :: k in wins ==> wins[k].symbol in table
  }

  /** One entry's contribution: bet size times run length times the symbol's multiplier. */
  function EntryPayout(entry: WinEntry, bet: real, table: map<string, real>): real
    requires entry.symbol in table
  {
    bet * (|entry.run| as real) * table[entry.symbol]
  }

  /** The smallest row number left; dictionary order is ascending row order. */
  ghost function MinKey(keys: set<nat>): (m: nat)
    requires keys != {}
    ensures m in keys && forall j :: j in keys ==> m <= j
  {
    var x :| x in keys;
    assert forall j :: j in keys && j != x ==> j in keys - {x};
    if keys - {x} == {} then x
    else
      var m := MinKey(keys - {x});
      if x <= m then x else m
  }

  /** Sum of the contributions of the entries under `keys`, smallest key first. */
  ghost function SumPayouts(wins: WinData, keys: set<nat>, bet: real, table: map<string, real>): real
    requires keys <= wins.Keys && KnownSymbols(wins, table)
    decreases keys
  {
    if keys == {} then 0.0
    else
      var k := MinKey(keys);
      EntryPayout(wins[k], bet, table) + SumPayouts(wins, keys - {k}, bet, table)
  }

  /** The payout of a `check_wins` result: zero for `None` or an empty dictionary. */
  ghost function Payout(winData: Option<WinData>, bet: real, table: map<string, real>): real
    requires winData.Some? ==> KnownSymbols(winData.value, table)
  {
    match winData
    case None => 0.0
    case Some(wins) => SumPayouts(wins, wins.Keys, bet, table)
  }

  /** Every recorded symbol has a multiplier of at least zero. */
  predicate NonNegativeMultipliers(wins: WinData, table: map<string, real>)
    requires KnownSymbols(wins, table)
  {
    forall k :: k in wins ==> table[wins[k].symbol] >= 0.0
  }

  /** A bet of at least zero on a symbol whose multiplier is at least zero pays at least zero. */
  lemma {:induction false} EntryPayoutNonNegative(entry: WinEntry, bet: real, table: map<string, real>)
    requires entry.symbol in table && bet >= 0.0 && table[entry.symbol] >= 0.0
    ensures EntryPayout(entry, bet, table) >= 0.0
  {
  }

  /** With a bet of at least zero and multipliers of at least zero, the sum is at least zero. */
  lemma {:induction false} SumPayoutsNonNegative(wins: WinData, keys: set<nat>, bet: real, table: map<string, real>)
    requires keys <= wins.Keys && KnownSymbols(wins, table)
    requires bet >= 0.0 && NonNegativeMultipliers(wins, table)
    ensures SumPayouts(wins, keys, bet, table) >= 0.0
    decreases keys
  {
    if keys != {} {
      var k := MinKey(keys);
      SumPayoutsNonNegative(wins, keys - {k}, bet, table);
      EntryPayoutNonNegative(wins[k], bet, table);
    }
  }

  lemma {:induction false} PayoutNonNegative(winData: Option<WinData>, bet: real, table: map<string, real>)
    requires winData.Some? ==> KnownSymbols(winData.value, table) && NonNegativeMultipliers(winData.value, table)
    requires bet >= 0.0
    ensures Payout(winData, bet, table) >= 0.0
  {
    if winData.Some? {
      SumPayoutsNonNegative(winData.value, winData.value.Keys, bet, table);
    }
  }

  /**
   * The total does not depend on the order the dictionary is walked in:
   * taking out any key first gives the same sum.
   */
  lemma {:induction false} SumPayoutsAnyOrder(wins: WinData, keys: set<nat>, k: nat, bet: real, table: map<string, real>)
    requires keys <= wins.Keys && KnownSymbols(wins, table) && k in keys
    ensures SumPayouts(wins, keys, bet, table) ==
      EntryPayout(wins[k], bet, table) + SumPayouts(wins, keys - {k}, bet, table)
    decreases keys
  {
    var m := MinKey(keys);
    if m != k {
      var rest := keys - {m};
      SumPayoutsAnyOrder(wins, rest, k, bet, table);
      assert m in keys - {k};
      var m' := MinKey(keys - {k});
      assert m' in keys && m <= m' && m' <= m;
      assert keys - {k} - {m} == rest - {k};
    }
  }

  /** A single entry contributes exactly its own product: `10.00 × 3 × 2.5 = 75.00`. */
  lemma {:induction false} PayoutOneEntry()
    ensures Payout(Some(map[1 := WinEntry("Cherry", [0, 1, 2])]), 10.0, map["Cherry" := 2.5]) == 75.0
  {
    var wins := map[1 := WinEntry("Cherry", [0, 1, 2])];
    assert wins.Keys == {1};
    assert MinKey({1}) == 1;
    assert {1} - {1} == {};
  }
}
