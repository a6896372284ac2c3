/** What the concrete examples share. */
module Examples {
  import opened Ledger

  /** Nothing outside the model refuses anything. */
  function Lenient(): Rules {
    Rules((tx, i, prev, height) => true, tx => 0, (b, height) => true, (tx, entries) => None, h => 0)
  }
}
