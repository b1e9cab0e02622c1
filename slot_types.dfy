/** Values shared by the spin engine: symbols, grids, win entries, errors. */
module SlotTypes {

  datatype Option<+T> = None | Some(value: T)

  /** A catalog row: a symbol name and its payout multiplier (two decimal places in the store). */
  datatype Symbol = Symbol(name: string, payoutMultiplier: real)

  /** Reels in reel order; each reel lists its visible names top to bottom. */
  type Grid = seq<seq<string>>

  /** One row's win: the symbol and the run of reel indices it occupies. */
  datatype WinEntry = WinEntry(symbol: string, run: seq<int>)

  /** The win dictionary, keyed by 1-based row number. */
  type WinData = map<nat, WinEntry>

  /** The exception that escapes `generate_spin` when a reel cannot show enough names. */
  datatype Error = IndexError

  datatype Result<+T> = Ok(value: T) | Err(error: Error)
}
