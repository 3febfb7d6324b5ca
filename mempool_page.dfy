/**
 * The mempool viewer: the type badge of each pending transaction, the
 * statistics `fetchMempool` computes over the list, and the input/output
 * counts a row shows. Refresh timers and date and size formatting are left
 * out.
 */
module MempoolPage {
  import opened Wrappers
  import opened TxModel
  import Api

  datatype TxType = Mixed | Shielded | Transparent

  /** `hasTransparentInputs || hasTransparentOutputs`: a positive transparent count. */
  predicate IsTransparent(tx: Transaction)
  {
    tx.inputCount > 0 || tx.outputCount > 0
  }

  /** `getTransactionType(tx)` */
  function GetTransactionType(tx: Transaction): (t: TxType)
    ensures t == Mixed <==> IsShielded(tx) && IsTransparent(tx)
    ensures t == Shielded <==> IsShielded(tx) && !IsTransparent(tx)
    ensures t == Transparent <==> !IsShielded(tx)
  {
    if IsShielded(tx) && IsTransparent(tx) then Mixed
    else if IsShielded(tx) then Shielded
    else Transparent
  }

  /** A transaction with no inputs or outputs of either kind is typed transparent. */
  lemma EmptyIsTransparent(tx: Transaction)
    requires tx.inputCount == 0 && tx.outputCount == 0 && tx.shieldedInputs == 0 && tx.shieldedOutputs == 0
    ensures GetTransactionType(tx) == Transparent
  {
  }

  /** The type reads only the raw shielded lists and the transparent counts. */
  lemma TypeIgnoresApproximateCounts(tx: Transaction, inputsApprox: int, outputsApprox: int)
    ensures GetTransactionType(tx) == GetTransactionType(tx.(inputCountApproximate := inputsApprox,
                                                              outputCountApproximate := outputsApprox))
  {
  }

  datatype MempoolStats = MempoolStats(total: nat, shielded: nat, transparent: nat, privacyScore: int)

  /** How many of `txs` get a badge other than Transparent. */
  function CountBadged(txs: seq<Transaction>): nat
  {
    if txs == [] then 0
    else CountBadged(txs[..|txs| - 1]) + (if GetTransactionType(txs[|txs| - 1]) != Transparent then 1 else 0)
  }

  /** The shielded statistic counts exactly the transactions badged Shielded or Mixed. */
  lemma {:induction false} ShieldedCountMatchesBadges(txs: seq<Transaction>)
    ensures CountShielded(txs) == CountBadged(txs)
  {
    if txs != [] {
      ShieldedCountMatchesBadges(txs[..|txs| - 1]);
    }
  }

  /**
   * The statistics of `fetchMempool`: one `forEach` adds each transaction to
   * exactly one of the two counts, and the score is the rounded shielded
   * percentage.
   */
  method ComputeStats(txs: seq<Transaction>) returns (stats: MempoolStats)
    ensures stats.total == |txs| && stats.shielded + stats.transparent == stats.total
    ensures stats.shielded == CountShielded(txs)
    ensures stats.privacyScore == Api.PrivacyScore(txs)
  {
    var shieldedCount := 0;
    var transparentCount := 0;
    var k := 0;
    while k < |txs|
      invariant 0 <= k <= |txs|
      invariant shieldedCount == CountShielded(txs[..k])
      invariant shieldedCount + transparentCount == k
    {
      assert txs[..k + 1][..k] == txs[..k];
      if IsShielded(txs[k]) {
        shieldedCount := shieldedCount + 1;
      } else {
        transparentCount := transparentCount + 1;
      }
      k := k + 1;
    }
    assert txs[..k] == txs;
    var privacyScore := if |txs| > 0 then Api.PrivacyScore(txs) else 0;
    stats := MempoolStats(|txs|, shieldedCount, transparentCount, privacyScore);
  }

  /** `(tx.input_count || 0) + (tx.shielded_input_raw?.length || 0)` */
  function ShownInputs(tx: Transaction): int
  {
    tx.inputCount + tx.shieldedInputs
  }

  /** `(tx.output_count || 0) + (tx.shielded_output_raw?.length || 0)` */
  function ShownOutputs(tx: Transaction): int
  {
    tx.outputCount + tx.shieldedOutputs
  }

  /**
   * With non-negative transparent counts, a badged transaction shows at
   * least one input or output, and a Transparent one shows exactly its
   * transparent counts.
   */
  lemma ShownCounts(tx: Transaction)
    requires tx.inputCount >= 0 && tx.outputCount >= 0
    ensures GetTransactionType(tx) != Transparent ==> ShownInputs(tx) + ShownOutputs(tx) > 0
    ensures GetTransactionType(tx) == Transparent ==>
              ShownInputs(tx) == tx.inputCount && ShownOutputs(tx) == tx.outputCount
  {
  }

  /** The page state `fetchMempool` writes. */
  class MempoolView {
    var transactions: seq<Transaction>
    var stats: MempoolStats
    var loading: bool

    /** The initial state: no transactions, zero statistics, loading. */
    constructor ()
      ensures transactions == [] && stats == MempoolStats(0, 0, 0, 0) && loading
    {
      transactions := [];
      stats := MempoolStats(0, 0, 0, 0);
      loading := true;
    }

    /**
     * `fetchMempool()`: `fetched` is the list `getMempoolTransactions`
     * returned, `None` when it threw; then the list and statistics keep their
     * old values. Loading ends either way.
     */
    method FetchMempool(fetched: Option<seq<Transaction>>)
      modifies this
      ensures !loading
      ensures fetched.None? ==> transactions == old(transactions) && stats == old(stats)
      ensures fetched.Some? ==>
                && transactions == fetched.value
                && stats.total == |fetched.value|
                && stats.shielded == CountShielded(fetched.value)
                && stats.transparent == |fetched.value| - CountShielded(fetched.value)
                && stats.privacyScore == Api.PrivacyScore(fetched.value)
    {
      if fetched.Some? {
        transactions := fetched.value;
        stats := ComputeStats(fetched.value);
      }
      loading := false;
    }
  }
}
