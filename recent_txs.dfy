/**
 * The recent-transactions panel: which transactions it lists, the
 * three-way classification of each row by its approximate (shielded) and
 * transparent counts, the fallback banner, and the inputs a row shows.
 * The classification is shared with the all-transactions page.
 */
module RecentTxs {
  import opened JsString
  import opened TxModel

  /** `(tx.input_count_approximate || 0) > 0 || (tx.output_count_approximate || 0) > 0` */
  predicate HasApproxShielded(tx: Transaction)
  {
    tx.inputCountApproximate > 0 || tx.outputCountApproximate > 0
  }

  /** `txs.filter(...)`: the transactions with a positive approximate count, in their order. */
  function ShieldedTxs(txs: seq<Transaction>): (r: seq<Transaction>)
    ensures |r| <= |txs|
    ensures forall i | 0 <= i < |r| :: HasApproxShielded(r[i]) && r[i] in txs
    ensures forall tx | tx in txs && HasApproxShielded(tx) :: tx in r
    ensures |r| == 0 <==> forall i | 0 <= i < |txs| :: !HasApproxShielded(txs[i])
  {
    if txs == [] then []
    else
      var front := ShieldedTxs(txs[..|txs| - 1]);
      var last := txs[|txs| - 1];
      assert txs == txs[..|txs| - 1] + [last];
      if HasApproxShielded(last) then front + [last] else front
  }

  /** A single transaction is kept exactly when it passes the test. */
  lemma ShieldedTxsOne(tx: Transaction)
    ensures ShieldedTxs([tx]) == if HasApproxShielded(tx) then [tx] else []
  {
    assert [tx][..0] == [];
  }

  /**
   * The filter works piece by piece, so the kept transactions stay in their
   * order and duplicates stay duplicated.
   */
  lemma {:induction false} ShieldedTxsAppend(a: seq<Transaction>, b: seq<Transaction>)
    ensures ShieldedTxs(a + b) == ShieldedTxs(a) + ShieldedTxs(b)
    decreases |b|
  {
    if b == [] {
      assert a + b == a;
    } else {
      var last := b[|b| - 1];
      assert (a + b)[..|a + b| - 1] == a + b[..|b| - 1];
      assert (a + b)[|a + b| - 1] == last;
      ShieldedTxsAppend(a, b[..|b| - 1]);
    }
  }

  /** `shieldedTxs.length > 0 ? shieldedTxs : txs.slice(0, 5)` */
  function DisplayTxs(txs: seq<Transaction>): seq<Transaction>
  {
    var shielded := ShieldedTxs(txs);
    if |shielded| > 0 then shielded else txs[..Min(5, |txs|)]
  }

  datatype TxClass = FullyShielded | Mixed | Public

  /**
   * The row classification: fully shielded when both approximate counts are
   * positive and neither transparent count is, mixed when some approximate
   * count is positive otherwise, public when none is.
   */
  function Classify(tx: Transaction): TxClass
  {
    var shieldedIn := tx.inputCountApproximate > 0;
    var shieldedOut := tx.outputCountApproximate > 0;
    var transparentIn := tx.inputCount > 0;
    var transparentOut := tx.outputCount > 0;
    if shieldedIn && shieldedOut && !transparentIn && !transparentOut then FullyShielded
    else if shieldedIn || shieldedOut then Mixed
    else Public
  }

  /** The three classes, each as a condition on the counts alone; a row is public exactly when the filter drops it. */
  lemma ClassifyCases(tx: Transaction)
    ensures Classify(tx) == FullyShielded <==>
              tx.inputCountApproximate > 0 && tx.outputCountApproximate > 0 && tx.inputCount <= 0 && tx.outputCount <= 0
    ensures Classify(tx) == Mixed <==>
              HasApproxShielded(tx) && !(tx.inputCountApproximate > 0 && tx.outputCountApproximate > 0 && tx.inputCount <= 0 && tx.outputCount <= 0)
    ensures Classify(tx) == Public <==> !HasApproxShielded(tx)
  {
  }

  /** When the filter finds anything, every listed transaction is fully shielded or mixed. */
  lemma NoPublicWhenShieldedFound(txs: seq<Transaction>)
    requires |ShieldedTxs(txs)| > 0
    ensures forall i | 0 <= i < |DisplayTxs(txs)| :: Classify(DisplayTxs(txs)[i]) != Public
  {
  }

  /** `shieldedTxs.length === 0 && displayTxs.length > 0` */
  predicate ShowsFallbackBanner(txs: seq<Transaction>)
  {
    |ShieldedTxs(txs)| == 0 && |DisplayTxs(txs)| > 0
  }

  /**
   * The banner shows exactly when there are transactions but none passes the
   * filter; then the panel lists the first five (or fewer), all public.
   */
  lemma FallbackBanner(txs: seq<Transaction>)
    ensures ShowsFallbackBanner(txs) <==> |txs| > 0 && forall i | 0 <= i < |txs| :: !HasApproxShielded(txs[i])
    ensures ShowsFallbackBanner(txs) ==>
              DisplayTxs(txs) == txs[..Min(5, |txs|)]
              && forall i | 0 <= i < |DisplayTxs(txs)| :: Classify(DisplayTxs(txs)[i]) == Public
  {
    if ShowsFallbackBanner(txs) {
      assert forall i | 0 <= i < |DisplayTxs(txs)| :: DisplayTxs(txs)[i] == txs[i];
    }
  }

  /** The panel lists at most all the transactions, and at most five when the filter finds none. */
  lemma DisplaySize(txs: seq<Transaction>)
    ensures |DisplayTxs(txs)| <= |txs|
    ensures |ShieldedTxs(txs)| == 0 ==> |DisplayTxs(txs)| == Min(5, |txs|)
    ensures |DisplayTxs(txs)| == 0 <==> |txs| == 0
  {
    if |txs| > 0 && |ShieldedTxs(txs)| > 0 {
      assert |DisplayTxs(txs)| > 0;
    }
  }

  /** `(tx.input_count || 0) + (tx.input_count_approximate || 0)` */
  function ShownInputs(tx: Transaction): int
  {
    tx.inputCount + tx.inputCountApproximate
  }

  /** With non-negative counts, a fully shielded row shows only its approximate inputs, and at least one. */
  lemma FullyShieldedInputs(tx: Transaction)
    requires tx.inputCount >= 0 && tx.outputCount >= 0
    requires Classify(tx) == FullyShielded
    ensures ShownInputs(tx) == tx.inputCountApproximate && ShownInputs(tx) > 0
  {
  }
}
