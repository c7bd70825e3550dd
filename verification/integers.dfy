// The machine integers of the Go code where their width matters.
module Integers {
  const TWO_TO_THE_64 := 0x1_0000_0000_0000_0000

  type uint64 = n: int | 0 <= n < TWO_TO_THE_64
}
