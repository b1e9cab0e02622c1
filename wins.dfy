/**
 * What `ReelService.check_wins` computes, as functions of the rows: the winning
 * candidate at each position of a row, the last candidate a row keeps, and the
 * dictionary keyed by one plus the index of the first equal row.
 */
module Wins {
  import opened SlotTypes
  import opened Runs

  /** Indices of `row` holding `sym`, ascending (the `possible_win` comprehension). */
  function Positions(row: seq<string>, sym: string): seq<int>
  {
    if |row| == 0 then []
    else Positions(row[..|row| - 1], sym) + (if row[|row| - 1] == sym then [|row| - 1] else [])
  }

  /** `row.count(sym)`: how many positions of `row` hold `sym`. */
  function Count(row: seq<string>, sym: string): nat
  {
    if |row| == 0 then 0
    else Count(row[..|row| - 1], sym) + (if row[|row| - 1] == sym then 1 else 0)
  }

  /** `row` shows one symbol at three adjacent positions. */
  predicate HasTriple(row: seq<string>)
  {
    exists i :: 0 <= i && i + 2 < |row| && row[i] == row[i + 1] && row[i + 1] == row[i + 2]
  }

  /** The entry the scan at position `p` writes, if any. */
  function Candidate(row: seq<string>, p: nat): Option<WinEntry>
    requires p < |row|
  {
    var sym := row[p];
    if Count(row, sym) > 2 then
      var run := LongestRun(Positions(row, sym));
      if |run| > 2 then Some(WinEntry(sym, run)) else None
    else None
  }

  /** How the scan at `p` decides, given the value `longest_seq` returned for the positions of `row[p]`. */
  lemma {:induction false} CandidateFrom(row: seq<string>, p: nat, longest: seq<int>)
    requires p < |row| && longest == LongestRun(Positions(row, row[p]))
    ensures Candidate(row, p) ==
      if Count(row, row[p]) > 2 && |longest| > 2 then Some(WinEntry(row[p], longest)) else None
  {
  }

  /** The candidates of `row`, position by position. */
  function Candidates(row: seq<string>): seq<Option<WinEntry>>
  {
    seq(|row|, p requires 0 <= p < |row| => Candidate(row, p))
  }

  /** The last entry present among the first `n` of `cands`: each write overwrites the one before. */
  function LastKept(cands: seq<Option<WinEntry>>, n: nat): Option<WinEntry>
    requires n <= |cands|
  {
    if n == 0 then None
    else if cands[n - 1].Some? then cands[n - 1]
    else LastKept(cands, n - 1)
  }

  /** The entry left for a row after scanning its first `n` positions. */
  function RowWinUpTo(row: seq<string>, n: nat): Option<WinEntry>
    requires n <= |row|
  {
    LastKept(Candidates(row), n)
  }

  function RowWin(row: seq<string>): Option<WinEntry>
  {
    RowWinUpTo(row, |row|)
  }

  /** `rows.index(row)`: the first index holding a row equal to `row`. */
  function FirstIndex(rows: seq<seq<string>>, row: seq<string>): (i: nat)
    requires row in rows
    ensures i < |rows| && rows[i] == row
  {
    if rows[0] == row then 0 else 1 + FirstIndex(rows[1..], row)
  }

  /** No row before `FirstIndex(rows, row)` equals `row`. */
  lemma {:induction false} FirstIndexIsFirst(rows: seq<seq<string>>, row: seq<string>)
    requires row in rows
    ensures forall j :: 0 <= j < FirstIndex(rows, row) ==> rows[j] != row
  {
    if rows[0] != row {
      FirstIndexIsFirst(rows[1..], row);
      forall j | 1 <= j < FirstIndex(rows, row) ensures rows[j] != row {
        assert rows[j] == rows[1..][j - 1];
      }
    }
  }

  /** Row `y` is found at `y` or before. */
  lemma {:induction false} FirstIndexAtMost(rows: seq<seq<string>>, y: nat)
    requires y < |rows|
    ensures FirstIndex(rows, rows[y]) <= y
  {
    FirstIndexIsFirst(rows, rows[y]);
  }

  /** The entry each row keeps, row by row. */
  function RowWins(rows: seq<seq<string>>): seq<Option<WinEntry>>
  {
    seq(|rows|, y requires 0 <= y < |rows| => RowWin(rows[y]))
  }

  /**
   * The dictionary after the first `n` rows have been scanned, when row `y`
   * keeps `kept[y]`: each kept entry is written under one plus the index of
   * the first row equal to its row, later rows overwriting earlier ones.
   */
  function Collect(rows: seq<seq<string>>, kept: seq<Option<WinEntry>>, n: nat): WinData
    requires n <= |rows| == |kept|
  {
    if n == 0 then map[]
    else Keep(Collect(rows, kept, n - 1), FirstIndex(rows, rows[n - 1]) + 1, kept[n - 1])
  }

  /** `hits[key] = entry` when the row kept an entry; the dictionary as it was otherwise. */
  function Keep(hits: WinData, key: nat, kept: Option<WinEntry>): WinData
  {
    if kept.Some? then hits[key := kept.value] else hits
  }

  /** The dictionary `check_wins` builds over the first `n` rows. */
  function WinsUpTo(rows: seq<seq<string>>, n: nat): WinData
    requires n <= |rows|
  {
    Collect(rows, RowWins(rows), n)
  }

  /** The result of `check_wins`: `None` in place of an empty dictionary. */
  function WinsResult(rows: seq<seq<string>>): Option<WinData>
  {
    var w := WinsUpTo(rows, |rows|);
    if w == map[] then None else Some(w)
  }

  lemma {:induction false} PositionsCount(row: seq<string>, sym: string)
    ensures |Positions(row, sym)| == Count(row, sym)
  {
    if |row| > 0 {
      PositionsCount(row[..|row| - 1], sym);
    }
  }

  lemma {:induction false} PositionsHold(row: seq<string>, sym: string)
    ensures forall k :: 0 <= k < |Positions(row, sym)| ==>
      0 <= Positions(row, sym)[k] < |row| && row[Positions(row, sym)[k]] == sym
  {
    if |row| > 0 {
      var init := row[..|row| - 1];
      PositionsHold(init, sym);
    }
  }

  lemma {:induction false} PositionsSorted(row: seq<string>, sym: string)
    ensures forall k, l :: 0 <= k < |Positions(row, sym)| && 0 <= l < |Positions(row, sym)| ==>
      (k < l <==> Positions(row, sym)[k] < Positions(row, sym)[l])
  {
    if |row| > 0 {
      var init := row[..|row| - 1];
      PositionsSorted(init, sym);
      PositionsHold(init, sym);
    }
  }

  lemma {:induction false} PositionsComplete(row: seq<string>, sym: string)
    ensures forall i :: 0 <= i < |row| && row[i] == sym ==> i in Positions(row, sym)
  {
    if |row| > 0 {
      var init := row[..|row| - 1];
      PositionsComplete(init, sym);
      forall i | 0 <= i < |row| - 1 && row[i] == sym ensures i in Positions(row, sym) {
        assert init[i] == row[i];
      }
    }
  }

  /** Adjacent reels showing `sym` are adjacent entries of its position list. */
  lemma {:induction false} PositionsAdjacent(row: seq<string>, sym: string, i: nat, k: nat)
    requires i + 1 < |row| && row[i + 1] == sym
    requires k < |Positions(row, sym)| && Positions(row, sym)[k] == i
    ensures k + 1 < |Positions(row, sym)| && Positions(row, sym)[k + 1] == i + 1
  {
    var ps := Positions(row, sym);
    PositionsSorted(row, sym);
    PositionsComplete(row, sym);
    assert i + 1 in ps;
    var l :| 0 <= l < |ps| && ps[l] == i + 1;
    assert k < l;
    assert ps[k + 1] <= ps[l];
  }

  /** A row keeps a win exactly when some symbol stands on three adjacent reels. */
  lemma {:induction false} RowWinIffTriple(row: seq<string>)
    ensures RowWin(row).Some? <==> HasTriple(row)
  {
    if HasTriple(row) {
      TripleKeepsWin(row);
    }
    if RowWin(row).Some? {
      KeptWinHasTriple(row);
    }
  }

  lemma {:induction false} TripleKeepsWin(row: seq<string>)
    requires HasTriple(row)
    ensures RowWin(row).Some?
  {
    var i :| 0 <= i && i + 2 < |row| && row[i] == row[i + 1] && row[i + 1] == row[i + 2];
    TripleIsCandidate(row, i);
    CandidateKept(row, |row|, i);
  }

  lemma {:induction false} KeptWinHasTriple(row: seq<string>)
    requires RowWin(row).Some?
    ensures HasTriple(row)
  {
    var p := LastCandidate(row, |row|);
    CandidateHasTriple(row, p);
  }

  /** A triple at `i` makes position `i` a candidate. */
  lemma {:induction false} TripleIsCandidate(row: seq<string>, i: nat)
    requires i + 2 < |row| && row[i] == row[i + 1] && row[i + 1] == row[i + 2]
    ensures Candidate(row, i).Some?
  {
    var sym := row[i];
    var ps := Positions(row, sym);
    PositionsComplete(row, sym);
    PositionsCount(row, sym);
    assert i in ps;
    var k :| 0 <= k < |ps| && ps[k] == i;
    PositionsAdjacent(row, sym, i, k);
    PositionsAdjacent(row, sym, i + 1, k + 1);
    assert IsRun(ps, k, k + 3);
    assert HasStep(ps);
    LongestRunIsLongestEarliest(ps);
    var s, e :| IsLongestRun(ps, s, e) && LongestRun(ps) == ps[s..e];
    assert e - s >= 3;
    assert ps[k] in ps && ps[k + 1] in ps && ps[k + 2] in ps;
    assert Count(row, sym) == |ps| >= 3;
  }

  /** A candidate carries a run of at least three adjacent reels showing its symbol. */
  lemma {:induction false} CandidateValid(row: seq<string>, p: nat)
    requires p < |row| && Candidate(row, p).Some?
    ensures Candidate(row, p).value.symbol == row[p]
    ensures |Candidate(row, p).value.run| >= 3
    ensures forall k :: 0 <= k < |Candidate(row, p).value.run| - 1 ==>
      Candidate(row, p).value.run[k] + 1 == Candidate(row, p).value.run[k + 1]
    ensures forall k :: 0 <= k < |Candidate(row, p).value.run| ==>
      0 <= Candidate(row, p).value.run[k] < |row| &&
      row[Candidate(row, p).value.run[k]] == row[p]
  {
    var sym := row[p];
    var ps := Positions(row, sym);
    PositionsHold(row, sym);
    LongestRunShape(ps);
    var run := LongestRun(ps);
    forall k | 0 <= k < |run| ensures 0 <= run[k] < |row| && row[run[k]] == sym {
      assert run[k] in ps;
      var l :| 0 <= l < |ps| && ps[l] == run[k];
    }
  }

  lemma {:induction false} CandidateHasTriple(row: seq<string>, p: nat)
    requires p < |row| && Candidate(row, p).Some?
    ensures HasTriple(row)
  {
    CandidateValid(row, p);
    var run := Candidate(row, p).value.run;
    var i := run[0];
    assert run[1] == i + 1 && run[2] == i + 2;
    assert row[i] == row[i + 1] && row[i + 1] == row[i + 2];
  }

  /** Nothing is kept from the first `n` writes exactly when none of them is present. */
  lemma {:induction false} LastKeptNoneIff(cands: seq<Option<WinEntry>>, n: nat)
    requires n <= |cands|
    ensures LastKept(cands, n).None? <==> forall q :: 0 <= q < n ==> cands[q].None?
    decreases n
  {
    if n > 0 {
      LastKeptNoneIff(cands, n - 1);
    }
  }

  /** What is kept is the write at some position `p`, and no write after `p` is present. */
  lemma {:induction false} LastKeptIsLast(cands: seq<Option<WinEntry>>, n: nat)
    requires n <= |cands| && LastKept(cands, n).Some?
    ensures exists p :: 0 <= p < n && LastKept(cands, n) == cands[p] &&
                        forall q :: p < q < n ==> cands[q].None?
    decreases n
  {
    if cands[n - 1].Some? {
      assert LastKept(cands, n) == cands[n - 1];
    } else {
      LastKeptIsLast(cands, n - 1);
      var p :| 0 <= p < n - 1 && LastKept(cands, n - 1) == cands[p] &&
        forall q :: p < q < n - 1 ==> cands[q].None?;
      assert forall q :: p < q < n ==> cands[q].None?;
    }
  }

  /** The position whose candidate a row keeps after `n` positions. */
  ghost function LastCandidate(row: seq<string>, n: nat): (p: nat)
    requires n <= |row| && RowWinUpTo(row, n).Some?
    ensures p < n && RowWinUpTo(row, n) == Candidate(row, p)
  {
    LastKeptIsLast(Candidates(row), n);
    var p :| 0 <= p < n && LastKept(Candidates(row), n) == Candidates(row)[p];
    p
  }

  /** A row keeps nothing after `n` positions exactly when none of them is a candidate. */
  lemma {:induction false} RowWinNoneIffNoCandidate(row: seq<string>, n: nat)
    requires n <= |row|
    ensures RowWinUpTo(row, n).None? <==> forall q :: 0 <= q < n ==> Candidate(row, q).None?
  {
    LastKeptNoneIff(Candidates(row), n);
    assert forall q :: 0 <= q < n ==> Candidates(row)[q] == Candidate(row, q);
  }

  /**
   * Later candidates overwrite earlier ones: a row keeps the candidate at some
   * position `p` and no position after `p` is a candidate.
   */
  lemma {:induction false} RowWinIsLastCandidate(row: seq<string>, n: nat)
    requires n <= |row| && RowWinUpTo(row, n).Some?
    ensures exists p :: 0 <= p < n && RowWinUpTo(row, n) == Candidate(row, p) &&
                        forall q :: p < q < n ==> Candidate(row, q).None?
  {
    var cands := Candidates(row);
    LastKeptIsLast(cands, n);
    var p :| 0 <= p < n && LastKept(cands, n) == cands[p] && forall q :: p < q < n ==> cands[q].None?;
    assert forall q :: p < q < n ==> Candidate(row, q) == cands[q];
  }

  /** Any candidate at or before `n` means the row keeps a win after `n` positions. */
  lemma {:induction false} CandidateKept(row: seq<string>, n: nat, p: nat)
    requires p < n <= |row| && Candidate(row, p).Some?
    ensures RowWinUpTo(row, n).Some?
  {
    LastKeptNoneIff(Candidates(row), n);
    assert Candidates(row)[p] == Candidate(row, p);
  }

  /** Every entry a row keeps names a run of three or more adjacent reels that all show its symbol. */
  lemma {:induction false} RowWinValid(row: seq<string>)
    requires RowWin(row).Some?
    ensures |RowWin(row).value.run| >= 3
    ensures forall k :: 0 <= k < |RowWin(row).value.run| - 1 ==>
      RowWin(row).value.run[k] + 1 == RowWin(row).value.run[k + 1]
    ensures forall k :: 0 <= k < |RowWin(row).value.run| ==>
      0 <= RowWin(row).value.run[k] < |row| && row[RowWin(row).value.run[k]] == RowWin(row).value.symbol
  {
    var p := LastCandidate(row, |row|);
    CandidateValid(row, p);
  }

  /** Equal rows keep equal entries, as they do when each row's entry is a function of the row. */
  predicate SameForEqualRows(rows: seq<seq<string>>, kept: seq<Option<WinEntry>>)
  {
    |kept| == |rows| &&
    forall y, z :: 0 <= y < |rows| && 0 <= z < |rows| && rows[y] == rows[z] ==> kept[y] == kept[z]
  }

  /** Writing a key twice leaves the second entry. */
  lemma {:induction false} KeepOverwrite(hits: WinData, key: nat, kept: Option<WinEntry>, entry: WinEntry)
    ensures Keep(hits, key, kept)[key := entry] == Keep(hits, key, Some(entry))
  {
  }

  /** Every row keeps the entry `RowWin` gives it, so equal rows keep equal entries. */
  lemma {:induction false} RowWinsSame(rows: seq<seq<string>>)
    ensures SameForEqualRows(rows, RowWins(rows))
  {
  }

  /** The dictionary after row `y` has been scanned and kept `kept`. */
  lemma {:induction false} WinsUpToNext(rows: seq<seq<string>>, y: nat, before: WinData, key: nat, kept: Option<WinEntry>)
    requires y < |rows| && kept == RowWinUpTo(rows[y], |rows[y]|)
    requires before == WinsUpTo(rows, y) && key == FirstIndex(rows, rows[y]) + 1
    ensures Keep(before, key, kept) == WinsUpTo(rows, y + 1)
  {
  }

  /**
   * Keys are row numbers `1..n`, and key `k` belongs to a row with no equal row
   * before it and holds that row's entry.
   */
  lemma {:induction false} CollectKeysValid(rows: seq<seq<string>>, kept: seq<Option<WinEntry>>, n: nat)
    requires n <= |rows| && SameForEqualRows(rows, kept)
    ensures forall k :: k in Collect(rows, kept, n) ==>
      1 <= k <= n && FirstIndex(rows, rows[k - 1]) == k - 1 &&
      kept[k - 1].Some? && Collect(rows, kept, n)[k] == kept[k - 1].value
  {
    if n > 0 {
      var before := Collect(rows, kept, n - 1);
      CollectKeysValid(rows, kept, n - 1);
      FirstIndexAtMost(rows, n - 1);
      var f := FirstIndex(rows, rows[n - 1]);
      assert FirstIndex(rows, rows[f]) == f;
      assert kept[f] == kept[n - 1];
      var after := Keep(before, f + 1, kept[n - 1]);
      assert Collect(rows, kept, n) == after;
      forall k | k in after
        ensures 1 <= k <= n && FirstIndex(rows, rows[k - 1]) == k - 1 && kept[k - 1].Some? && after[k] == kept[k - 1].value
      {
        if k == f + 1 && kept[n - 1].Some? {
          assert after[k] == kept[n - 1].value;
        } else {
          assert k in before && after[k] == before[k];
        }
      }
    }
  }

  /**
   * Every row among the first `n` that keeps an entry shows up under the key of
   * the first row equal to it (identical rows share one key, and the entry is
   * the same whichever of them wrote it last).
   */
  lemma {:induction false} CollectKeysComplete(rows: seq<seq<string>>, kept: seq<Option<WinEntry>>, n: nat)
    requires n <= |rows| && SameForEqualRows(rows, kept)
    ensures forall y :: 0 <= y < n && kept[y].Some? ==>
      FirstIndex(rows, rows[y]) + 1 in Collect(rows, kept, n) &&
      Collect(rows, kept, n)[FirstIndex(rows, rows[y]) + 1] == kept[y].value
  {
    if n > 0 {
      var before := Collect(rows, kept, n - 1);
      CollectKeysComplete(rows, kept, n - 1);
      var g := FirstIndex(rows, rows[n - 1]);
      var after := Keep(before, g + 1, kept[n - 1]);
      assert Collect(rows, kept, n) == after;
      forall y | 0 <= y < n && kept[y].Some?
        ensures FirstIndex(rows, rows[y]) + 1 in after && after[FirstIndex(rows, rows[y]) + 1] == kept[y].value
      {
        var f := FirstIndex(rows, rows[y]);
        if f == g {
          assert rows[y] == rows[f] == rows[n - 1];
          assert kept[n - 1] == kept[y];
          assert after == before[g + 1 := kept[y].value];
        } else {
          assert f + 1 in before && after[f + 1] == before[f + 1];
        }
      }
    }
  }

  /**
   * Every key of the `check_wins` dictionary is a row number `k` in
   * `1..|rows|` whose row has no equal row before it, and it holds the entry
   * that row keeps.
   */
  lemma {:induction false} WinsKeyValid(rows: seq<seq<string>>, k: nat)
    requires k in WinsUpTo(rows, |rows|)
    ensures 1 <= k <= |rows| && FirstIndex(rows, rows[k - 1]) == k - 1
    ensures RowWin(rows[k - 1]).Some? && WinsUpTo(rows, |rows|)[k] == RowWin(rows[k - 1]).value
  {
    var kept := RowWins(rows);
    RowWinsSame(rows);
    CollectKeysValid(rows, kept, |rows|);
    assert k in Collect(rows, kept, |rows|);
    assert kept[k - 1] == RowWin(rows[k - 1]);
  }

  /**
   * A row holding a triple is present under the key of the first row equal
   * to it, with the entry the row keeps.
   */
  lemma {:induction false} WinsKeyComplete(rows: seq<seq<string>>, y: nat)
    requires y < |rows| && HasTriple(rows[y])
    ensures RowWin(rows[y]).Some? && FirstIndex(rows, rows[y]) + 1 in WinsUpTo(rows, |rows|)
    ensures WinsUpTo(rows, |rows|)[FirstIndex(rows, rows[y]) + 1] == RowWin(rows[y]).value
  {
    var kept := RowWins(rows);
    RowWinsSame(rows);
    CollectKeysComplete(rows, kept, |rows|);
    TripleKeepsWin(rows[y]);
    assert kept[y] == RowWin(rows[y]);
    var key := FirstIndex(rows, rows[y]) + 1;
    assert key in Collect(rows, kept, |rows|) && Collect(rows, kept, |rows|)[key] == kept[y].value;
  }

  /**
   * `check_wins` answers `None`, never an empty dictionary, exactly when no row
   * shows a symbol on three adjacent reels.
   */
  lemma {:induction false} WinsResultNoneIffNoTriple(rows: seq<seq<string>>)
    ensures WinsResult(rows) != Some(map[])
    ensures WinsResult(rows).None? <==> forall y :: 0 <= y < |rows| ==> !HasTriple(rows[y])
  {
    var w := WinsUpTo(rows, |rows|);
    if exists y :: 0 <= y < |rows| && HasTriple(rows[y]) {
      var y :| 0 <= y < |rows| && HasTriple(rows[y]);
      WinsKeyComplete(rows, y);
    }
    if w != map[] {
      var k :| k in w;
      WinsKeyValid(rows, k);
      KeptWinHasTriple(rows[k - 1]);
    }
  }

  /** Every recorded symbol is one the rows show. */
  lemma {:induction false} WinSymbolsShown(rows: seq<seq<string>>, names: set<string>)
    requires forall y, x :: 0 <= y < |rows| && 0 <= x < |rows[y]| ==> rows[y][x] in names
    ensures forall k :: k in WinsUpTo(rows, |rows|) ==> WinsUpTo(rows, |rows|)[k].symbol in names
  {
    forall k | k in WinsUpTo(rows, |rows|) ensures WinsUpTo(rows, |rows|)[k].symbol in names {
      WinsKeyValid(rows, k);
      RowWinValid(rows[k - 1]);
      var run := RowWin(rows[k - 1]).value.run;
      assert rows[k - 1][run[0]] == RowWin(rows[k - 1]).value.symbol;
    }
  }

  /** In a row showing one symbol throughout, the symbol is at every position. */
  lemma {:induction false} UniformPositions(row: seq<string>, sym: string)
    requires forall i :: 0 <= i < |row| ==> row[i] == sym
    ensures Positions(row, sym) == seq(|row|, i => i)
  {
    if |row| > 0 {
      UniformPositions(row[..|row| - 1], sym);
    }
  }

  /** A row of three or more reels showing one symbol keeps the whole row as its run. */
  lemma {:induction false} UniformRowWins(row: seq<string>, sym: string)
    requires |row| >= 3 && forall i :: 0 <= i < |row| ==> row[i] == sym
    ensures RowWin(row) == Some(WinEntry(sym, seq(|row|, i => i)))
  {
    var hit := seq(|row|, i => i);
    UniformPositions(row, sym);
    PositionsCount(row, sym);
    ConsecutiveIsLongestRun(hit);
    var entry := WinEntry(sym, hit);
    assert Candidate(row, |row| - 1) == Some(entry);
    assert Candidates(row)[|row| - 1] == Some(entry);
  }

  /** The positions in the first `n` entries extend those in the first `n - 1`. */
  lemma {:induction false} PositionsStep(row: seq<string>, n: nat, sym: string)
    requires 0 < n <= |row|
    ensures Positions(row[..n], sym) ==
      Positions(row[..n - 1], sym) + if row[n - 1] == sym then [n - 1] else []
  {
    assert row[..n][..n - 1] == row[..n - 1];
  }

  /** `Lemon` stands at reels 3, 4 and 5 of the two-winner row. */
  lemma {:induction false} LemonPositions()
    ensures Positions(["Cherry", "Cherry", "Cherry", "Lemon", "Lemon", "Lemon"], "Lemon") == [3, 4, 5]
  {
    var row := ["Cherry", "Cherry", "Cherry", "Lemon", "Lemon", "Lemon"];
    PositionsStep(row, 1, "Lemon");
    PositionsStep(row, 2, "Lemon");
    PositionsStep(row, 3, "Lemon");
    PositionsStep(row, 4, "Lemon");
    PositionsStep(row, 5, "Lemon");
    PositionsStep(row, 6, "Lemon");
    assert row[..6] == row;
  }

  /**
   * Two winning symbols in one row: the scan reaches `Lemon` after `Cherry`,
   * so the row keeps `Lemon`.
   */
  lemma {:induction false} LaterWinnerKept()
    ensures RowWin(["Cherry", "Cherry", "Cherry", "Lemon", "Lemon", "Lemon"]) ==
      Some(WinEntry("Lemon", [3, 4, 5]))
  {
    var row := ["Cherry", "Cherry", "Cherry", "Lemon", "Lemon", "Lemon"];
    var hit := [3, 4, 5];
    LemonPositions();
    PositionsCount(row, "Lemon");
    ConsecutiveIsLongestRun(hit);
    var entry := WinEntry("Lemon", hit);
    assert Candidate(row, 5) == Some(entry);
    assert Candidates(row)[5] == Some(entry);
  }
}
