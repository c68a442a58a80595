/** What one producer pushes and one consumer expects, in both queue demos of
    02_threads/thread_demo.c: 0, 1, ..., n-1 and then the sentinel. */
module Workload {

  const SENTINEL := -1

  function ItemAt(n: int, k: nat): int { if k < n then k else SENTINEL }

  /** How many values that is; a negative bound still sends the sentinel. */
  function Pushes(n: int): nat { if n < 0 then 1 else n + 1 }

  function Program(n: int, k: nat): (p: seq<int>)
    ensures |p| == k
  {
    seq(k, j requires 0 <= j => ItemAt(n, j))
  }
}
