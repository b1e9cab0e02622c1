/**
 * `ReelService` from slot_machine_api/slots/services.py: draws a grid from the
 * catalog, turns reels into rows, finds runs of one symbol, and prices the wins.
 * The random draws are passed in as index permutations of the catalog.
 */
module ReelServices {
  import opened SlotTypes
  import opened Runs
  import opened Grids
  import opened Wins
  import opened Payouts

  /**
   * Each shuffle lists every index below `n` exactly once: the outcomes of
   * `random.sample` over a catalog of `n` symbols, one per reel.
   */
  predicate AreShuffles(shuffles: seq<seq<nat>>, n: nat)
  {
    && (forall r :: 0 <= r < |shuffles| ==> |shuffles[r]| == n)
    && (forall r, i :: 0 <= r < |shuffles| && 0 <= i < |shuffles[r]| ==> shuffles[r][i] < n)
    && (forall r, i, j :: 0 <= r < |shuffles| && 0 <= i < j < |shuffles[r]| ==> shuffles[r][i] != shuffles[r][j])
  }

  /** The names the catalog offers. */
  function Names(symbols: seq<Symbol>): set<string>
  {
    set s | s in symbols :: s.name
  }

  /** No two catalog entries share a name. */
  predicate DistinctNames(symbols: seq<Symbol>)
  {
    forall i, j :: 0 <= i < j < |symbols| ==> symbols[i].name != symbols[j].name
  }

  /**
   * The all-`Cherry` grid of five reels of three names gives three equal rows;
   * they share key 1, and the entry is the whole row:
   * `{1: ["Cherry", [0, 1, 2, 3, 4]]}`.
   */
  lemma {:induction false} AllCherryGridWins()
    ensures Flippable(CherryGrid())
    ensures WinsResult(Transpose(CherryGrid())) == Some(map[1 := WinEntry("Cherry", [0, 1, 2, 3, 4])])
  {
    var row := ["Cherry", "Cherry", "Cherry", "Cherry", "Cherry"];
    var rows := [row, row, row];
    CherryGridRows();
    var entry := WinEntry("Cherry", [0, 1, 2, 3, 4]);
    UniformRowWins(row, "Cherry");
    assert seq(5, i => i) == [0, 1, 2, 3, 4];
    assert FirstIndex(rows, row) == 0;
    var kept := RowWins(rows);
    assert kept == [Some(entry), Some(entry), Some(entry)];
    assert Collect(rows, kept, 1) == map[1 := entry];
    assert Collect(rows, kept, 2) == map[1 := entry];
    assert WinsUpTo(rows, |rows|) == Collect(rows, kept, 3) == map[1 := entry];
    assert 1 in WinsUpTo(rows, |rows|);
  }

  /** The rows of the all-`Cherry` grid are three rows of five `Cherry`. */
  lemma {:induction false} CherryGridRows()
    ensures Flippable(CherryGrid())
    ensures var row := ["Cherry", "Cherry", "Cherry", "Cherry", "Cherry"];
      Transpose(CherryGrid()) == [row, row, row]
  {
    var grid := CherryGrid();
    assert |grid[0]| == 3;
    forall y | 0 <= y < 3 ensures Transpose(grid)[y] == ["Cherry", "Cherry", "Cherry", "Cherry", "Cherry"] {
      assert forall x :: 0 <= x < 5 ==> Transpose(grid)[y][x] == grid[x][y];
    }
  }

  /** Five reels, each showing `Cherry` three times. */
  function CherryGrid(): seq<seq<string>>
  {
    seq(5, _ => ["Cherry", "Cherry", "Cherry"])
  }

  class ReelService {
    const symbols: seq<Symbol>

    constructor (symbols: seq<Symbol>)
      ensures this.symbols == symbols
    {
      this.symbols := symbols;
    }

    /**
     * `generate_spin`: reel `r` shows the first `visibleRows` names of the
     * `r`-th shuffle of the catalog. The first reel fails with an index error
     * when the catalog has fewer than `visibleRows` symbols.
     */
    method GenerateSpin(numReels: nat, visibleRows: nat, shuffles: seq<seq<nat>>) returns (result: Result<Grid>)
      requires |shuffles| == numReels && AreShuffles(shuffles, |symbols|)
      ensures result.Err? <==> numReels > 0 && visibleRows > |symbols|
      ensures result.Ok? ==>
        && |result.value| == numReels && Rectangular(result.value, visibleRows)
        && (numReels == 0 || visibleRows <= |symbols|)
        && forall r, i :: 0 <= r < numReels && 0 <= i < visibleRows ==>
             result.value[r][i] == symbols[shuffles[r][i]].name && result.value[r][i] in Names(symbols)
      ensures result.Ok? && DistinctNames(symbols) ==>
        forall r, i, j :: 0 <= r < numReels && 0 <= i < j < visibleRows ==> result.value[r][i] != result.value[r][j]
    {
      var grid: Grid := [];
      for reel := 0 to numReels
        invariant |grid| == reel && Rectangular(grid, visibleRows)
        invariant reel > 0 ==> visibleRows <= |symbols|
        invariant forall r, i :: 0 <= r < reel && 0 <= i < visibleRows ==>
          grid[r][i] == symbols[shuffles[r][i]].name
      {
        var shuffled := seq(|symbols|, i requires 0 <= i < |symbols| => symbols[shuffles[reel][i]]);
        if visibleRows > |shuffled| {
          return Err(IndexError);
        }
        grid := grid + [seq(visibleRows, i requires 0 <= i < visibleRows => shuffled[i].name)];
      }
      result := Ok(grid);
      forall r, i | 0 <= r < numReels && 0 <= i < visibleRows ensures grid[r][i] in Names(symbols) {
        assert symbols[shuffles[r][i]] in symbols;
      }
    }

    /**
     * `flip_horizontal`: fills a `cols × rows` buffer rotating each reel into
     * place, then reverses every buffer row. The outcome is the transpose.
     */
    static method FlipHorizontal(result: Grid) returns (horizontal: seq<seq<string>>)
      requires Flippable(result)
      ensures |horizontal| == |result[0]| && Rectangular(horizontal, |result|)
      ensures forall y, x :: 0 <= y < |result[0]| && 0 <= x < |result| ==> horizontal[y][x] == result[x][y]
      ensures horizontal == Transpose(result)
    {
      var horizontalValues := result;
      var rows, cols := |horizontalValues|, |horizontalValues[0]|;
      var hvals2 := new string[cols, rows]((_, _) => "");
      for x := 0 to rows
        invariant forall x', y :: 0 <= x' < x && 0 <= y < cols ==> hvals2[y, rows - x' - 1] == horizontalValues[x'][y]
      {
        for y := 0 to cols
          invariant forall x', y' :: 0 <= x' < x && 0 <= y' < cols ==> hvals2[y', rows - x' - 1] == horizontalValues[x'][y']
          invariant forall y' :: 0 <= y' < y ==> hvals2[y', rows - x - 1] == horizontalValues[x][y']
        {
          hvals2[y, rows - x - 1] := horizontalValues[x][y];
        }
      }
      horizontal := seq(cols, y requires 0 <= y < cols reads hvals2 =>
        seq(rows, k requires 0 <= k < rows reads hvals2 => hvals2[y, rows - 1 - k]));
      forall y, x | 0 <= y < cols && 0 <= x < rows ensures horizontal[y][x] == result[x][y] {
        assert hvals2[y, rows - (rows - 1 - x) - 1] == horizontalValues[rows - 1 - x][y];
      }
      forall y | 0 <= y < cols ensures horizontal[y] == Transpose(result)[y] {
      }
    }

    /**
     * `longest_seq`: the longest slice of `hit` stepping up by one, the earliest
     * on ties, and empty when no adjacent pair is consecutive.
     */
    static method LongestSeq(hit: seq<int>) returns (r: seq<int>)
      ensures !HasStep(hit) ==> r == []
      ensures HasStep(hit) ==> exists s, e :: IsLongestRun(hit, s, e) && r == hit[s..e]
      ensures r == LongestRun(hit)
    {
      var n := |hit|;
      var subSeqLength: nat, longest: nat := 1, 1;
      var start: nat, end: nat := 0, 0;
      var i := 0;
      while i < n - 1
        invariant n == 0 ==> i == 0 && longest == 1
        invariant n > 0 ==> i < n && Scanned(hit, i + 1, subSeqLength, longest, start, end)
        invariant longest == 1 ==> start == 0 && end == 0
      {
        ghost var run, best, from, to := subSeqLength, longest, start, end;
        if hit[i] == hit[i + 1] - 1 {
          subSeqLength := subSeqLength + 1;
          if subSeqLength > longest {
            longest := subSeqLength;
            start := i + 2 - subSeqLength;
            end := i + 2;
          }
        } else {
          subSeqLength := 1;
        }
        i := i + 1;
        ScanStep(hit, i, run, best, from, to, subSeqLength, longest, start, end);
      }
      ScanFindsLongestRun(hit, start, end, longest);
      r := hit[start..end];
      LongestRunIsLongestEarliest(hit);
    }

    /**
     * `check_wins`: for every row and every position, a symbol seen more than
     * twice whose longest run of positions exceeds two is written under
     * `index of the first equal row + 1`; `None` when nothing was written.
     */
    method CheckWins(result: Grid) returns (winData: Option<WinData>)
      requires Flippable(result)
      ensures winData == WinsResult(Transpose(result))
      ensures winData != Some(map[])
      ensures winData.None? <==> forall y :: 0 <= y < |result[0]| ==> !HasTriple(Transpose(result)[y])
    {
      var hits: WinData := map[];
      var horizontal := FlipHorizontal(result);
      for y := 0 to |horizontal|
        invariant hits == WinsUpTo(horizontal, y)
      {
        var row := horizontal[y];
        var key := FirstIndex(horizontal, row) + 1;
        ghost var before := WinsUpTo(horizontal, y);
        ghost var kept: Option<WinEntry> := None;
        for p := 0 to |row|
          invariant kept == RowWinUpTo(row, p)
          invariant hits == Keep(before, key, kept)
        {
          var sym := row[p];
          if Count(row, sym) > 2 {
            var possibleWin := Positions(row, sym);
            var longest := LongestSeq(possibleWin);
            CandidateFrom(row, p, longest);
            if |longest| > 2 {
              KeepOverwrite(before, key, kept, WinEntry(sym, longest));
              hits := hits[key := WinEntry(sym, longest)];
              kept := Some(WinEntry(sym, longest));
            }
          } else {
            CandidateFrom(row, p, LongestRun(Positions(row, sym)));
          }
        }
        WinsUpToNext(horizontal, y, before, key, kept);
      }
      winData := if |hits| == 0 then None else Some(hits);
      WinsResultNoneIffNoTriple(horizontal);
    }

    /**
     * `calculate_payout`: zero when there is no win; otherwise the sum, over the
     * entries in row order, of bet size times run length times the multiplier
     * the symbol table gives the symbol.
     */
    method CalculatePayout(winData: Option<WinData>, betSize: real, table: map<string, real>) returns (totalPayout: real)
      requires winData.Some? ==> KnownSymbols(winData.value, table)
      ensures totalPayout == Payout(winData, betSize, table)
      ensures betSize >= 0.0 && (winData.Some? ==> NonNegativeMultipliers(winData.value, table)) ==>
        totalPayout >= 0.0
    {
      if winData.None? || |winData.value| == 0 {
        return 0.0;
      }
      var wins := winData.value;
      totalPayout := 0.0;
      var remaining := wins.Keys;
      while remaining != {}
        invariant remaining <= wins.Keys
        invariant totalPayout + SumPayouts(wins, remaining, betSize, table) == SumPayouts(wins, wins.Keys, betSize, table)
        decreases remaining
      {
        ghost var least := MinKey(remaining);
        var rowNumber :| rowNumber in remaining && forall j :: j in remaining ==> rowNumber <= j;
        assert rowNumber == least;
        var winInfo := wins[rowNumber];
        var multiplier := table[winInfo.symbol];
        var comboLength := |winInfo.run|;
        totalPayout := totalPayout + betSize * (comboLength as real) * multiplier;
        remaining := remaining - {rowNumber};
      }
      if betSize >= 0.0 && NonNegativeMultipliers(wins, table) {
        PayoutNonNegative(winData, betSize, table);
      }
    }
  }
}
