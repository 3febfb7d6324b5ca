/**
 * `GET /api/privacy-stats`: counts the shielded transactions among the 100
 * most recent ones the upstream explorer returns and derives the privacy
 * metrics from the count.
 */
module PrivacyStatsRoute {
  import opened Wrappers
  import opened TxModel
  import Api

  /**
   * What the upstream request gives: a response that is not ok (with its
   * status), an ok response whose `data` field may be missing, or an error
   * thrown while fetching or parsing.
   */
  datatype Upstream = NotOk(status: nat) | Ok(data: Option<seq<Transaction>>) | Threw

  datatype Response =
    | ErrorResponse(status: nat, error: string)
    | Metrics(privacyScore: int, shieldedTxCount: nat, transparentTxCount: int, fullyShieldedPercentage: int)

  const FetchFailed := "Failed to fetch transactions"
  const InternalServerError := "Internal Server Error"

  /** `GET(request)`: the count is taken with a `forEach` over `data.data || []`. */
  method Get(upstream: Upstream) returns (r: Response)
    ensures upstream.NotOk? ==> r == ErrorResponse(upstream.status, FetchFailed)
    ensures upstream.Threw? ==> r == ErrorResponse(500, InternalServerError)
    ensures upstream.Ok? ==>
      var txs := if upstream.data.Some? then upstream.data.value else [];
      r == Metrics(Api.PrivacyScore(txs), CountShielded(txs), |txs| - CountShielded(txs), Api.PrivacyScore(txs))
  {
    match upstream
    case NotOk(status) =>
      return ErrorResponse(status, FetchFailed);
    case Threw =>
      return ErrorResponse(500, InternalServerError);
    case Ok(data) =>
      var txs := if data.Some? then data.value else [];
      var shieldedCount := 0;
      var k := 0;
      while k < |txs|
        invariant 0 <= k <= |txs|
        invariant shieldedCount == CountShielded(txs[..k])
      {
        assert txs[..k + 1][..k] == txs[..k];
        if IsShielded(txs[k]) {
          shieldedCount := shieldedCount + 1;
        }
        k := k + 1;
      }
      assert txs[..k] == txs;
      var privacyScore := Api.PrivacyScore(txs);
      return Metrics(privacyScore, shieldedCount, |txs| - shieldedCount, privacyScore);
  }

  /**
   * The metrics are consistent: the shielded and transparent counts are
   * both non-negative and sum to the number of transactions, the score lies
   * in 0..100, is 0 for an empty or all-transparent list and 100 for an
   * all-shielded one.
   */
  lemma MetricsConsistent(txs: seq<Transaction>)
    ensures var s := CountShielded(txs);
      && 0 <= |txs| - s && s + (|txs| - s) == |txs|
      && 0 <= Api.PrivacyScore(txs) <= 100
      && (s == 0 ==> Api.PrivacyScore(txs) == 0)
      && (|txs| > 0 && s == |txs| ==> Api.PrivacyScore(txs) == 100)
  {
  }
}
