/**
 * `SlotMachineService.play_spin` from slot_machine_api/slots/services.py: checks
 * funds, debits the bet, draws and evaluates a grid, credits the payout and
 * appends the spin to the player's history.
 */
module SlotMachine {
  import opened SlotTypes
  import opened Grids
  import opened Wins
  import opened Payouts
  import opened ReelServices

  /** A stored spin: bet, payout, the grid and the win dictionary. */
  datatype SpinRecord = SpinRecord(betAmount: real, payout: real, result: Grid, winData: Option<WinData>)

  /** What `play_spin` hands back, or the exception that escapes it. */
  datatype SpinOutcome =
    | Declined(message: string)
    | Played(result: Grid, winData: Option<WinData>, payout: real, currentBalance: real)
    | Raised(error: Error)

  function TotalBets(spins: seq<SpinRecord>): real
  {
    if spins == [] then 0.0 else TotalBets(spins[..|spins| - 1]) + spins[|spins| - 1].betAmount
  }

  function TotalPayouts(spins: seq<SpinRecord>): real
  {
    if spins == [] then 0.0 else TotalPayouts(spins[..|spins| - 1]) + spins[|spins| - 1].payout
  }

  /** A player account: balance, running totals, and the spins of the player's game. */
  class Player {
    var balance: real
    var totalWager: real
    var totalWon: real
    var spins: seq<SpinRecord>
    /** The balance the account opened with; fixed once the account exists. */
    ghost const opening: real

    /**
     * The ledger agrees with the history: the totals are the sums over the
     * recorded spins, and the balance is the opening balance minus what was
     * wagered plus what was won.
     */
    ghost predicate Balanced()
      reads this
    {
      Ledger(opening, balance, totalWager, totalWon, spins)
    }

    constructor (balance: real)
      ensures opening == balance
      ensures this.balance == balance && totalWager == 0.0 && totalWon == 0.0 && spins == []
      ensures Balanced()
    {
      this.balance := balance;
      totalWager := 0.0;
      totalWon := 0.0;
      spins := [];
      opening := balance;
    }
  }

  /** Appending one spin adds its bet and its payout to the history's totals. */
  lemma {:induction false} TotalsAppend(spins: seq<SpinRecord>, spin: SpinRecord)
    ensures TotalBets(spins + [spin]) == TotalBets(spins) + spin.betAmount
    ensures TotalPayouts(spins + [spin]) == TotalPayouts(spins) + spin.payout
  {
  }

  /** The ledger identity of `Balanced`, over plain values. */
  ghost predicate Ledger(opening: real, balance: real, wager: real, won: real, spins: seq<SpinRecord>)
  {
    wager == TotalBets(spins) && won == TotalPayouts(spins) && balance == opening - wager + won
  }

  /**
   * A played spin keeps the ledger: debiting the bet, crediting the payout and
   * recording the spin leave the totals equal to the sums over the history.
   */
  lemma {:induction false} PlayedSpinKeepsLedger(opening: real, balance: real, wager: real, won: real, spins: seq<SpinRecord>,
                              bet: real, payout: real, result: Grid, winData: Option<WinData>)
    requires Ledger(opening, balance, wager, won, spins)
    ensures Ledger(opening, balance - bet + payout, wager + bet, won + payout,
                   spins + [SpinRecord(bet, payout, result, winData)])
  {
  }

  /**
   * A spin that raises after the debit breaks the ledger: the bet is counted
   * in the wager but no spin records it.
   */
  lemma {:induction false} RaisedSpinBreaksLedger(opening: real, balance: real, wager: real, won: real, spins: seq<SpinRecord>, bet: real)
    requires Ledger(opening, balance, wager, won, spins) && bet != 0.0
    ensures !Ledger(opening, balance - bet, wager + bet, won, spins)
  {
  }

  /** The catalog lookup finds every catalog symbol with its own multiplier. */
  predicate TableMatches(symbols: seq<Symbol>, table: map<string, real>)
  {
    forall s :: s in symbols ==> s.name in table && table[s.name] == s.payoutMultiplier
  }

  /**
   * A grid drawn from the catalog only wins with catalog symbols, so the
   * lookup prices every entry, and never below zero when no catalog
   * multiplier is.
   */
  lemma {:induction false} CatalogWinsPriced(result: Grid, symbols: seq<Symbol>, table: map<string, real>)
    requires Flippable(result) && TableMatches(symbols, table)
    requires forall x, y :: 0 <= x < |result| && 0 <= y < |result[0]| ==> result[x][y] in Names(symbols)
    ensures WinsResult(Transpose(result)).Some? ==> KnownSymbols(WinsResult(Transpose(result)).value, table)
    ensures WinsResult(Transpose(result)).Some? && (forall s :: s in symbols ==> s.payoutMultiplier >= 0.0) ==>
      NonNegativeMultipliers(WinsResult(Transpose(result)).value, table)
  {
    var rows := Transpose(result);
    TransposeShape(result);
    WinSymbolsShown(rows, Names(symbols));
    var wins := WinsUpTo(rows, |rows|);
    forall k | k in wins
      ensures wins[k].symbol in table
      ensures (forall s :: s in symbols ==> s.payoutMultiplier >= 0.0) ==> table[wins[k].symbol] >= 0.0
    {
      var s :| s in symbols && s.name == wins[k].symbol;
    }
  }

  class SlotMachineService {
    const reelService: ReelService

    /** The service draws from `symbols`, the whole symbol catalog. */
    constructor (symbols: seq<Symbol>)
      ensures reelService.symbols == symbols
    {
      reelService := new ReelService(symbols);
    }

    /**
     * `play_spin` with the default 5 reels of 3 visible rows. `shuffles` are the
     * five catalog shuffles; `table` is the symbol lookup.
     */
    method PlaySpin(player: Player, betSize: real, table: map<string, real>, shuffles: seq<seq<nat>>)
      returns (outcome: SpinOutcome)
      requires |shuffles| == 5 && AreShuffles(shuffles, |reelService.symbols|)
      requires TableMatches(reelService.symbols, table)
      modifies player
      // Not enough funds: declined, nothing changes.
      ensures old(player.balance) < betSize ==>
        outcome == Declined("Insufficient balance") &&
        player.balance == old(player.balance) && player.totalWager == old(player.totalWager) &&
        player.totalWon == old(player.totalWon) && player.spins == old(player.spins)
      // Too small a catalog: the bet stays debited and the index error escapes.
      ensures old(player.balance) >= betSize && |reelService.symbols| < 3 ==>
        outcome == Raised(IndexError) &&
        player.balance == old(player.balance) - betSize &&
        player.totalWager == old(player.totalWager) + betSize &&
        player.totalWon == old(player.totalWon) && player.spins == old(player.spins)
      // A played spin.
      ensures old(player.balance) >= betSize && |reelService.symbols| >= 3 ==>
        && outcome.Played?
        && |outcome.result| == 5 && Rectangular(outcome.result, 3)
        && (forall r, i :: 0 <= r < 5 && 0 <= i < 3 ==>
              outcome.result[r][i] == reelService.symbols[shuffles[r][i]].name)
        && outcome.winData == WinsResult(Transpose(outcome.result))
        && (outcome.winData.Some? ==> KnownSymbols(outcome.winData.value, table))
        && outcome.payout == Payout(outcome.winData, betSize, table)
        && player.balance == old(player.balance) - betSize + outcome.payout
        && player.totalWager == old(player.totalWager) + betSize
        && player.totalWon == old(player.totalWon) + outcome.payout
        && player.spins == old(player.spins) + [SpinRecord(betSize, outcome.payout, outcome.result, outcome.winData)]
        && outcome.currentBalance == player.balance
      // With a bet of at least zero and multipliers of at least zero, nobody is left below zero.
      ensures outcome.Played? && betSize >= 0.0 && (forall s :: s in reelService.symbols ==> s.payoutMultiplier >= 0.0) ==>
        outcome.payout >= 0.0 && player.balance >= 0.0
    {
      if player.balance < betSize {
        return Declined("Insufficient balance");
      }
      player.balance := player.balance - betSize;
      player.totalWager := player.totalWager + betSize;

      var generated := reelService.GenerateSpin(5, 3, shuffles);
      if generated.Err? {
        return Raised(generated.error);
      }
      var result := generated.value;

      var winData := reelService.CheckWins(result);
      var payout := 0.0;
      CatalogWinsPriced(result, reelService.symbols, table);
      if winData.Some? {
        payout := reelService.CalculatePayout(winData, betSize, table);
        player.balance := player.balance + payout;
        player.totalWon := player.totalWon + payout;
      }
      assert payout == Payout(winData, betSize, table);

      var spin := SpinRecord(betSize, payout, result, winData);
      player.spins := player.spins + [spin];

      outcome := Played(result, winData, payout, player.balance);
      if betSize >= 0.0 && forall s :: s in reelService.symbols ==> s.payoutMultiplier >= 0.0 {
        PayoutNonNegative(winData, betSize, table);
      }
    }
  }

  /**
   * The ledger survives `play_spin` on a balanced account unless the spin
   * raises: a declined spin changes nothing and a played one keeps it.
   */
  method PlayKeepingLedger(service: SlotMachineService, player: Player, betSize: real,
                             table: map<string, real>, shuffles: seq<seq<nat>>)
      returns (outcome: SpinOutcome)
    requires |shuffles| == 5 && AreShuffles(shuffles, |service.reelService.symbols|)
    requires TableMatches(service.reelService.symbols, table)
    requires player.Balanced()
    modifies player
    ensures !outcome.Raised? ==> player.Balanced()
  {
    ghost var balance, wager, won, spins := player.balance, player.totalWager, player.totalWon, player.spins;
    outcome := service.PlaySpin(player, betSize, table, shuffles);
    if outcome.Played? {
      PlayedSpinKeepsLedger(player.opening, balance, wager, won, spins,
                            betSize, outcome.payout, outcome.result, outcome.winData);
    }
  }
}
