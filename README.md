# Slot machine spin engine, in Dafny

This project models the spin engine of a slot-machine API, `slot_machine_api/slots/services.py`:

- `ReelService.generate_spin` draws a grid of reels from the symbol catalog.
- `flip_horizontal` turns the reels into rows.
- `longest_seq` finds the longest run of consecutive reel indices.
- `check_wins` builds the dictionary of winning rows.
- `calculate_payout` prices the wins.
- `SlotMachineService.play_spin` checks the player's funds, debits the bet, credits the payout and records the spin.

The code changes state step by step, and the model keeps that form:

- `ReelServices.ReelService` is a class whose methods have the source's loops:
  - `GenerateSpin` fills the grid reel by reel.
  - `FlipHorizontal` fills a two-dimensional buffer in place with nested index loops.
  - `LongestSeq` keeps the source's four running variables.
  - `CheckWins` updates the dictionary inside nested loops.
  - `CalculatePayout` accumulates the total over the dictionary.
- `SlotMachine.Player` is a class whose fields `PlaySpin` updates in place.

Each method is proved against a pure specification in its own module:

- `Grids.Transpose` specifies `flip_horizontal`.
- `Runs.LongestRun` specifies `longest_seq`. It is an independent reference definition that scans run starts rather than run ends.
- `Wins.WinsResult` specifies `check_wins`.
- `Payouts.Payout` specifies `calculate_payout`.

Lemmas then prove what those specifications promise.

Modelling choices:
- Money and multipliers are `real`. That is exact, as `Decimal` is at the ten-digit sizes the store allows; `Decimal` itself rounds to 28 significant digits.
- A grid is a sequence of reels. The source keeps it in a dictionary keyed `0..num_reels-1` in insertion order.
- The win dictionary is a `map<nat, WinEntry>` keyed by 1-based row number. New keys only ever appear in ascending order, so the source's insertion-order iteration is ascending key order. `Payouts.SumPayouts` walks the keys in that order.
- `random.sample` is replaced by parameters: `shuffles` holds one permutation of catalog indices per reel.
- The `Symbol.objects.get` lookup is a `map<string, real>` from names to multipliers. `SlotMachine.TableMatches` requires it to agree with the catalog.
- What escapes `play_spin` is part of its outcome:
  - `Declined` is the insufficient-balance answer.
  - `Played` is a completed spin.
  - `Raised(IndexError)` is the exception `generate_spin` raises on a catalog of fewer than three symbols.

Two behaviours of the code are modelled as written:
- **A row with two winning symbols keeps the last one scanned.** Each write to `hits[...]` overwrites the one before. `Wins.RowWinIsLastCandidate` states this in general, and `Wins.LaterWinnerKept` shows it on `["Cherry" ×3, "Lemon" ×3]`, where the row keeps `Lemon`. A first-winner-wins policy would keep `Cherry` here. The code keeps the last winner, and the model follows the code.
- **The debit is not undone when the spin raises.** The bet is debited and saved before `generate_spin` runs. When the catalog is too small, the exception escapes with the debit and the wager already stored and no spin recorded (`SlotMachine.SlotMachineService.PlaySpin`, `SlotMachine.RaisedSpinBreaksLedger`). An all-or-nothing account update would leave the player untouched. The model follows the code.

Identical rows collapse onto one key, because the key is `horizontal.index(row) + 1` (`Wins.WinsKeyValid`, `Wins.WinsKeyComplete`, `ReelServices.AllCherryGridWins`).

## Model

| member | source | states |
|---|---|---|
| Grids.TransposeTwice | slot_machine_api/slots/services.py:19-33 | turning a rectangular grid into rows and the rows back into reels gives the grid back |
| Runs.RunEndMaximal | slot_machine_api/slots/services.py:41-49 | `RunEnd(hit, s)` ends a run starting at `s`, and no run starting at `s` ends later |
| Runs.BestFromIsBest | slot_machine_api/slots/services.py:41-51 | `BestFrom(hit, s)` is a run, no run starting at or after `s` is longer, and every run starting between `s` and it is strictly shorter |
| Runs.RunOfTwo | slot_machine_api/slots/services.py:41-49 | some adjacent pair steps up by one if and only if a run of two or more entries exists |
| Runs.LongestRunIsLongestEarliest | slot_machine_api/slots/services.py:36-51 | `LongestRun` is empty when no adjacent pair steps by one, and otherwise is the longest run, the earliest on ties |
| Runs.LongestRunUnique | slot_machine_api/slots/services.py:44-47 | at most one slice is the longest-earliest run |
| Runs.LongestRunShape | slot_machine_api/slots/services.py:36-51 | a non-empty `LongestRun` has two or more entries, steps up by one throughout and takes its entries from the input |
| Runs.ConsecutiveIsLongestRun | slot_machine_api/slots/services.py:41-51 | a list of two or more entries that steps up by one throughout is its own longest run |
| Runs.ScanStep | slot_machine_api/slots/services.py:41-49 | one iteration of the scan keeps the scan state `Scanned`: the current run is maximal, no run seen is longer than `longest`, and `[start, end)` is the earliest run of that length |
| Runs.ScanFindsLongestRun | slot_machine_api/slots/services.py:38-51 | the state the scan ends in makes `hit[start:end]` equal `LongestRun(hit)`, including `start = end = 0` when no pair steps by one |
| ReelServices.ReelService.constructor | slot_machine_api/slots/services.py:6-7 | the service keeps the catalog it is given |
| ReelServices.ReelService.GenerateSpin | slot_machine_api/slots/services.py:9-16 | an index error exactly when there are reels and the catalog has fewer symbols than visible rows; otherwise `numReels` reels of `visibleRows` names, reel `r` showing the first names of its shuffle, all from the catalog, with no repeat within a reel when catalog names are distinct |
| ReelServices.ReelService.FlipHorizontal | slot_machine_api/slots/services.py:18-33 | the rotate-then-reverse of the reels is the transpose: `|reels[0]|` rows of `|reels|` names with `rows[y][x] == reels[x][y]` |
| ReelServices.ReelService.LongestSeq | slot_machine_api/slots/services.py:35-51 | the result equals `LongestRun(hit)`: empty when no adjacent pair steps by one, otherwise a slice that is the longest run, the earliest on ties |
| ReelServices.ReelService.CheckWins | slot_machine_api/slots/services.py:53-68 | the result is `WinsResult` of the rows, never an empty dictionary, and `None` exactly when no row shows a symbol on three adjacent reels |
| ReelServices.ReelService.CalculatePayout | slot_machine_api/slots/services.py:70-84 | zero for `None` or an empty dictionary; otherwise the sum over the entries in row order of bet × run length × multiplier, and at least zero when the bet and the multipliers are |
| ReelServices.CherryGridRows | slot_machine_api/slots/tests.py:84 | five reels of three `Cherry` give three rows of five `Cherry` |
| ReelServices.AllCherryGridWins | slot_machine_api/slots/tests.py:84-87 | five reels of three `Cherry` give exactly `{1: ["Cherry", [0, 1, 2, 3, 4]]}`: three equal rows share key 1 |
| Wins.FirstIndex | slot_machine_api/slots/services.py:66 | `rows.index(row)` is an index of `rows` holding `row` |
| Wins.FirstIndexIsFirst | slot_machine_api/slots/services.py:66 | no row before `rows.index(row)` equals `row` |
| Wins.FirstIndexAtMost | slot_machine_api/slots/services.py:66 | row `y` is found at index `y` or before |
| Wins.PositionsCount | slot_machine_api/slots/services.py:60-61 | the `possible_win` list has `row.count(sym)` entries |
| Wins.PositionsHold | slot_machine_api/slots/services.py:61 | every listed index is a position of `row` holding `sym` |
| Wins.PositionsSorted | slot_machine_api/slots/services.py:61 | the listed indices are strictly ascending |
| Wins.PositionsComplete | slot_machine_api/slots/services.py:61 | every position holding `sym` is listed |
| Wins.PositionsAdjacent | slot_machine_api/slots/services.py:61 | adjacent reels showing `sym` are adjacent entries of its position list |
| Wins.UniformPositions | slot_machine_api/slots/services.py:61 | in a row showing one symbol throughout, it stands at every position |
| Wins.TripleIsCandidate | slot_machine_api/slots/services.py:60-65 | a symbol on three adjacent reels makes its position a winning candidate |
| Wins.CandidateValid | slot_machine_api/slots/services.py:60-66 | a candidate names the scanned symbol and a run of three or more consecutive reel indices, all showing that symbol |
| Wins.CandidateHasTriple | slot_machine_api/slots/services.py:60-66 | a candidate implies a symbol on three adjacent reels |
| Wins.LastKeptNoneIff | slot_machine_api/slots/services.py:59-66 | after a sequence of optional writes, nothing is kept if and only if no write happened |
| Wins.LastKeptIsLast | slot_machine_api/slots/services.py:59-66 | what is kept is the write at some position, and no later write happened |
| Wins.LastCandidate | slot_machine_api/slots/services.py:59-66 | the position whose candidate a row keeps is before `n` and its candidate is the one kept |
| Wins.RowWinNoneIffNoCandidate | slot_machine_api/slots/services.py:59-66 | a row keeps nothing after `n` positions if and only if none of them is a candidate |
| Wins.RowWinIsLastCandidate | slot_machine_api/slots/services.py:59-66 | a row keeps the candidate at some position `p`, and no position after `p` is a candidate: later winners overwrite earlier ones |
| Wins.CandidateKept | slot_machine_api/slots/services.py:59-66 | any candidate among the first `n` positions means the row keeps a win |
| Wins.TripleKeepsWin | slot_machine_api/slots/services.py:58-66 | a row with a symbol on three adjacent reels keeps a win |
| Wins.KeptWinHasTriple | slot_machine_api/slots/services.py:58-66 | a row that keeps a win has a symbol on three adjacent reels |
| Wins.RowWinIffTriple | slot_machine_api/slots/services.py:58-66 | a row keeps a win if and only if some symbol stands on three adjacent reels |
| Wins.RowWinValid | slot_machine_api/slots/services.py:58-66 | a kept entry has a run of three or more consecutive reel indices, each showing the entry's symbol |
| Wins.UniformRowWins | slot_machine_api/slots/services.py:58-66 | a row of three or more reels showing one symbol keeps that symbol with the whole row as its run |
| Wins.LemonPositions | slot_machine_api/slots/services.py:61 | in `["Cherry" ×3, "Lemon" ×3]`, `Lemon` stands at reels 3, 4 and 5 |
| Wins.LaterWinnerKept | slot_machine_api/slots/services.py:58-66 | `["Cherry" ×3, "Lemon" ×3]` keeps the later winner, `Lemon` over reels 3 to 5 |
| Wins.CollectKeysValid | slot_machine_api/slots/services.py:58-66 | every key is a row number `k` whose row has no equal row before it, and it holds that row's entry |
| Wins.CollectKeysComplete | slot_machine_api/slots/services.py:58-66 | every row that keeps an entry is present under the key of the first row equal to it, with that entry |
| Wins.WinsKeyValid | slot_machine_api/slots/services.py:58-68 | each key of the `check_wins` dictionary is in `1..|rows|`, is `rows.index(row) + 1` of its own row, and holds the entry that row keeps |
| Wins.WinsKeyComplete | slot_machine_api/slots/services.py:58-68 | a row with a symbol on three adjacent reels is present under the key of the first equal row, with its entry |
| Wins.WinsResultNoneIffNoTriple | slot_machine_api/slots/services.py:68 | `check_wins` never answers an empty dictionary, and answers `None` exactly when no row shows a symbol on three adjacent reels |
| Wins.WinSymbolsShown | slot_machine_api/slots/services.py:58-66 | every recorded symbol is one the rows show |
| Payouts.MinKey | slot_machine_api/slots/services.py:78 | the next row number visited is the smallest one left |
| Payouts.SumPayoutsNonNegative | slot_machine_api/slots/services.py:76-84 | the sum over any set of keys is at least zero when the bet and the multipliers are |
| Payouts.PayoutNonNegative | slot_machine_api/slots/services.py:70-84 | the payout is at least zero when the bet and the multipliers are |
| Payouts.SumPayoutsAnyOrder | slot_machine_api/slots/services.py:78-82 | the total does not depend on the order of the walk: taking any key out first gives the same sum |
| Payouts.PayoutOneEntry | slot_machine_api/slots/services.py:82 | one entry `["Cherry", [0, 1, 2]]` at bet 10.00 and multiplier 2.5 pays 75.00 |
| SlotMachine.Player.constructor | slot_machine_api/slots/models.py:16-20 | a new account has the given balance, which is also its fixed opening balance, zero totals, no spins, and a balanced ledger |
| SlotMachine.PlayedSpinKeepsLedger | slot_machine_api/slots/services.py:103-131 | a played spin keeps the ledger: wager and winnings stay the sums over the history, and the balance stays opening − wager + won |
| SlotMachine.PlayKeepingLedger | slot_machine_api/slots/services.py:93-140 | on a balanced account, a `play_spin` that does not raise leaves the ledger balanced |
| SlotMachine.RaisedSpinBreaksLedger | slot_machine_api/slots/services.py:103-108 | a non-zero bet debited by a spin that then raises leaves the ledger unbalanced |
| SlotMachine.CatalogWinsPriced | slot_machine_api/slots/services.py:80 | every symbol in the win dictionary of a grid drawn from the catalog has a multiplier in the lookup, and that multiplier is at least zero when all catalog multipliers are |
| SlotMachine.SlotMachineService.constructor | slot_machine_api/slots/services.py:88-91 | the service's reel service draws from the whole catalog |
| SlotMachine.SlotMachineService.PlaySpin | slot_machine_api/slots/services.py:93-140 | insufficient balance: declined and nothing changes. Catalog too small: an index error escapes with the debit and wager kept. Otherwise: a 5 × 3 grid from the shuffles, wins as `check_wins` gives them, payout as `calculate_payout` gives it, balance − bet + payout, wager + bet, won + payout, exactly one spin record appended, current balance returned, and no negative payout or balance when the bet and the multipliers are at least zero |

## Left out

- The Django ORM is not modelled: `player.save()`, `Game.objects.get_or_create` and `Spin.objects.create`. The account's fields are updated in place. Each spin record is appended to `Player.spins`, which stands for the spins of the player's game.
- The `Game` row, spin ids (UUIDs) and timestamps carry no logic of the engine and are not modelled.
- Randomness: `random.sample` is replaced by the `shuffles` parameter. Statistical fairness is not stated.
- The `Symbol.objects.get` lookup is the `table` parameter, which must agree with the catalog. `DoesNotExist` and `MultipleObjectsReturned` are not modelled.
- Money is exact `real`. The store's quantisation to two decimal places and its ten-digit limit are not modelled. Neither is the `Decimal(bet_size)` conversion, since the bet is a number already.
- There is no concurrency or atomicity between simultaneous spins; the code has no locking or transaction.
- ReelServices.ReelService.FlipHorizontal: requires an input with at least one reel and no reel shorter than the first. The source raises `IndexError` on any other input, for example the empty grid that `generate_spin(num_reels=0)` returns. Every grid `generate_spin` builds with at least one reel meets the condition.
- ReelServices.ReelService.CheckWins: has the same requirement, so the `IndexError` that `check_wins` passes on from `flip_horizontal` is not modelled, whether the grid has no reels or a later reel is shorter than the first. `PlaySpin` always draws 5 reels of 3 rows, so that path is never reached through `play_spin`.
- SlotMachine.SlotMachineService.PlaySpin: fixes the draw to the defaults, 5 reels of 3 rows, as `play_spin` does. Its ensures does not restate the ledger invariant `Player.Balanced`; it states the new balance, totals and history. `Player.opening` is a constant, so no spin can move it. `SlotMachine.PlayKeepingLedger` combines these with `SlotMachine.PlayedSpinKeepsLedger` to keep `Balanced()` across a declined or played spin, and `SlotMachine.RaisedSpinBreaksLedger` shows that a raised spin with a non-zero bet breaks it.
- Returned dictionaries (`success`, `message`, `spin_id`, ...) become the `SpinOutcome` constructors. `spin_id` is dropped with the ids.
- The HTTP views, serializers, URL routing and admin screens are outside the engine and are not modelled.
