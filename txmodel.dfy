/**
 * A transaction as the explorer receives it from the block-explorer API,
 * and the one classification rule the privacy statistics share: a transaction
 * is shielded when its shielded input or shielded output list is non-empty.
 */
module TxModel {
  import opened JsString

  /**
   * Optional numeric fields that the source reads through `x || 0` are 0 when
   * absent. The raw shielded input/output lists are only ever tested for
   * emptiness or measured, so they are kept as their lengths.
   */
  datatype Transaction = Transaction(
    hash: string,
    blockId: int,
    time: string,
    inputCount: int,              // transparent inputs (input_count)
    outputCount: int,             // transparent outputs (output_count)
    inputCountApproximate: int,   // input_count_approximate
    outputCountApproximate: int,  // output_count_approximate
    shieldedInputs: nat,          // shielded_input_raw.length
    shieldedOutputs: nat)         // shielded_output_raw.length

  /** `hasShieldedInputs || hasShieldedOutputs` over the raw lists; transparent counts play no part. */
  predicate IsShielded(tx: Transaction)
  {
    tx.shieldedInputs > 0 || tx.shieldedOutputs > 0
  }

  /** How many transactions of `txs` are shielded, counted left to right as the `forEach` loops do. */
  function CountShielded(txs: seq<Transaction>): (n: nat)
    ensures n <= |txs|
    ensures n == |txs| <==> forall i | 0 <= i < |txs| :: IsShielded(txs[i])
    ensures n == 0 <==> forall i | 0 <= i < |txs| :: !IsShielded(txs[i])
  {
    if txs == [] then 0
    else
      var front := txs[..|txs| - 1];
      assert forall i | 0 <= i < |front| :: front[i] == txs[i];
      CountShielded(front) + (if IsShielded(txs[|txs| - 1]) then 1 else 0)
  }

  /** The shielded transactions of `txs`, in order. */
  function ShieldedOnly(txs: seq<Transaction>): (r: seq<Transaction>)
    ensures forall t | t in r :: IsShielded(t) && t in txs
  {
    if txs == [] then []
    else (if IsShielded(txs[0]) then [txs[0]] else []) + ShieldedOnly(txs[1..])
  }

  lemma {:induction false} CountIsFilterLength(txs: seq<Transaction>)
    ensures CountShielded(txs) == |ShieldedOnly(txs)|
  {
    if txs != [] {
      var last := txs[|txs| - 1];
      var front := txs[..|txs| - 1];
      CountIsFilterLength(front);
      ShieldedOnlyAppend(front, [last]);
      assert front + [last] == txs;
    }
  }

  lemma {:induction false} ShieldedOnlyAppend(a: seq<Transaction>, b: seq<Transaction>)
    ensures ShieldedOnly(a + b) == ShieldedOnly(a) + ShieldedOnly(b)
  {
    if a == [] {
      assert a + b == b;
    } else {
      assert (a + b)[1..] == a[1..] + b;
      ShieldedOnlyAppend(a[1..], b);
    }
  }
}
