/**
 * `getPrivacyScore` and `performSearch`: the share of shielded transactions
 * among the most recent ones, and the routing of a search query to a page.
 */
module Api {
  import opened Wrappers
  import opened JsString
  import opened TxModel

  /** The score every privacy view derives from a list: 0 when empty, else round(100 * shielded / n). */
  function PrivacyScore(txs: seq<Transaction>): (score: int)
    ensures 0 <= score <= 100
    ensures |txs| > 0 && (forall i | 0 <= i < |txs| :: IsShielded(txs[i])) ==> score == 100
    ensures (forall i | 0 <= i < |txs| :: !IsShielded(txs[i])) ==> score == 0
  {
    if |txs| == 0 then 0 else Percent(CountShielded(txs), |txs|)
  }

  /**
   * `getPrivacyScore` over the page `getRecentTxs(100)` returned (a failed
   * request is the empty page): counts the shielded transactions in a
   * `forEach` and rounds their percentage.
   */
  method GetPrivacyScore(txs: seq<Transaction>) returns (score: int)
    ensures score == PrivacyScore(txs)
  {
    if |txs| == 0 {
      return 0;
    }
    var shieldedCount := 0;
    var k := 0;
    while k < |txs|
      invariant 0 <= k <= |txs|
      invariant shieldedCount == CountShielded(txs[..k])
    {
      assert txs[..k + 1][..k] == txs[..k];
      if IsShielded(txs[k]) {
        shieldedCount := shieldedCount + 1;
      }
      k := k + 1;
    }
    assert txs[..k] == txs;
    score := Percent(shieldedCount, |txs|);
  }

  /** Only the raw shielded lists decide: transparent counts never change the classification. */
  lemma ShieldedIgnoresTransparent(tx: Transaction, inputs: int, outputs: int, inputsApprox: int, outputsApprox: int)
    ensures IsShielded(tx) == IsShielded(tx.(inputCount := inputs, outputCount := outputs,
                                             inputCountApproximate := inputsApprox,
                                             outputCountApproximate := outputsApprox))
  {
  }

  /** `performSearch(query)`: the page a query leads to, `None` for `null`. */
  function PerformSearch(query: string): (path: Option<string>)
  {
    Route(Trim(query))
  }

  /** The dispatch on the trimmed query `q`. */
  function Route(q: string): Option<string>
  {
    if AllDigits(q) then Some("/block/" + q)
    else if IsHex64(q) then Some("/tx/" + q)
    else if IsAddress(q) then Some("/address/" + q)
    else None
  }

  predicate IsAddress(q: string)
  {
    StartsWith(q, "t1") || StartsWith(q, "t3") || StartsWith(q, "zs") || StartsWith(q, "u1")
  }

  /** `/<kind>/<q>` */
  function Path(kind: string, q: string): string
  {
    "/" + kind + "/" + q
  }

  /** A path names its kind: the three kinds of page never share a path. */
  lemma PathsDistinct(q: string, q': string)
    ensures Path("block", q) != Path("tx", q')
    ensures Path("block", q) != Path("address", q')
    ensures Path("tx", q) != Path("address", q')
  {
    assert Path("block", q)[1] == 'b' && Path("tx", q')[1] == 't' && Path("address", q')[1] == 'a';
  }

  /**
   * The query decides the page: digits first, then 64 hex characters, then an
   * address prefix; anything else finds nothing. Each page ends in the query.
   */
  lemma RouteCases(q: string)
    ensures Route(q) == Some(Path("block", q)) <==> AllDigits(q)
    ensures Route(q) == Some(Path("tx", q)) <==> !AllDigits(q) && IsHex64(q)
    ensures Route(q) == Some(Path("address", q)) <==> !AllDigits(q) && !IsHex64(q) && IsAddress(q)
    ensures Route(q) == None <==> !AllDigits(q) && !IsHex64(q) && !IsAddress(q)
    ensures Route(q).Some? ==> var p := Route(q).value; |q| <= |p| && p[|p| - |q|..] == q
  {
    PathsDistinct(q, q);
    assert "/block/" + q == Path("block", q);
    assert "/tx/" + q == Path("tx", q);
    assert "/address/" + q == Path("address", q);
  }

  /** A query of digits goes to the block of that height. */
  lemma DigitsGoToBlock(q: string)
    requires AllDigits(q)
    ensures PerformSearch(q) == Some("/block/" + q)
  {
    assert IsAsciiDigit(q[0]) && IsAsciiDigit(q[|q| - 1]);
    TrimKeeps(q);
    assert Trim(q) == q;
  }

  /** A 64-digit query is both a height and a transaction hash; the height wins. */
  lemma DigitsWinOverHex(q: string)
    requires AllDigits(q) && |q| == 64
    ensures IsHex64(q)
    ensures PerformSearch(q) == Some("/block/" + q)
  {
    DigitsGoToBlock(q);
    DigitsAreHex(q);
  }

  lemma DigitsAreHex(q: string)
    requires AllDigits(q)
    ensures forall i | 0 <= i < |q| :: IsHexChar(q[i])
  {
  }

  /** Surrounding whitespace does not matter: searching the trimmed query goes to the same page. */
  lemma SearchIgnoresWhitespace(query: string)
    ensures PerformSearch(Trim(query)) == PerformSearch(query)
  {
    TrimIdempotent(query);
  }
}
