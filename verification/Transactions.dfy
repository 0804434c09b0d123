/** Transactions: the pieces of a frame that the receive engine sends as one
    memory-write TLP each. */
module Transactions {
  import opened Streams

  const MAX_WORDS := 32  // PCIE_MAX_RX_TRANS_LENGTH_C

  /** An entry of the transaction FIFO. */
  datatype Tran = Tran(subId: nat, eofe: bool, length: nat, count: nat)

  /** The beats of one transaction. */
  type Group = seq<Beat>

  function TranOf(g: Group): Tran {
    var l := if g == [] then NO_BEAT else g[|g| - 1];
    Tran(l.dest % 16, l.eofe, |Words(g)|, |g| % 512)
  }

  /** A finished transaction: marked at its end and only there, no frame end
      inside, at most 32 dwords, and cut only when a frame ends or another full
      beat would not fit. */
  ghost predicate Closed(g: Group) {
    && g != []
    && |Words(g)| <= MAX_WORDS
    && (forall i :: 0 <= i < |g| ==> (g[i].eot <==> i == |g| - 1))
    && (forall i :: 0 <= i < |g| - 1 ==> !g[i].last)
    && (g[|g| - 1].last || |Words(g)| > MAX_WORDS - 4)
  }
}
