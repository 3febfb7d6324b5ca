/**
 * `POST /api/scan-transactions`: validates the viewing key, then works out
 * the block range to scan from the optional heights and scan period. No
 * scanning takes place; the answer describes the range.
 *
 * Heights are taken to be numbers (`None` when the field is absent); a
 * request body that is not JSON is the `Failure` of `body`, carrying the
 * message of the error it raises.
 */
module ScanRoute {
  import opened Wrappers
  import ZcashUtils
  import ZcashWasm

  /** A JSON value as far as its truthiness and `validateUFVK` tell it apart. */
  datatype Json = JStr(s: string) | JNum(n: int) | JBool(b: bool) | JNull | JObject

  predicate Truthy(v: Json)
  {
    match v
    case JStr(s) => s != ""
    case JNum(n) => n != 0
    case JBool(b) => b
    case JNull => false
    case JObject => true
  }

  /** `validateUFVK` sees a string or something else. */
  function AsArgument(v: Json): ZcashUtils.JsValue
  {
    if v.JStr? then ZcashUtils.Str(v.s) else ZcashUtils.NonString
  }

  datatype Body = Body(viewingKey: Json, scanPeriod: Option<string>, startHeight: Option<int>, endHeight: Option<int>)

  datatype Balance = Balance(confirmed: int, unconfirmed: int, total: int)

  datatype Response =
    | ErrorResponse(status: nat, error: string)
    | ScanResponse(viewingKeyNetwork: Option<ZcashUtils.Network>, startHeight: int, endHeight: int,
                   totalBlocks: int, scanStatus: string, transactions: seq<string>, balance: Balance)

  const CurrentHeight := 2700000
  const KeyRequiredError := "Viewing key is required"
  const InvalidKeyFallback := "Invalid viewing key format"
  const InternalError := "Internal server error"

  /** `x || fallback` for an optional height. */
  function OrDefault(x: Option<int>, fallback: int): (r: int)
    ensures x.Some? && x.value != 0 ==> r == x.value
    ensures x.None? || x.value == 0 ==> r == fallback
  {
    if x.Some? && x.value != 0 then x.value else fallback
  }

  /** The `switch` on a truthy scan period: a known period replaces `start`, any other leaves it. */
  function PeriodStart(scanPeriod: Option<string>, start: int): int
  {
    if scanPeriod.None? || scanPeriod.value == "" then start
    else
      match scanPeriod.value
      case "last-1-hour" => CurrentHeight - 48
      case "last-6-hours" => CurrentHeight - 288
      case "last-24-hours" => CurrentHeight - 1152
      case "last-7-days" => CurrentHeight - 8064
      case "since-birthday" => CurrentHeight - 34560
      case _ => start
  }

  /** `POST(request)` */
  function Post(body: Result<Body, string>): Response
  {
    if body.Failure? then ErrorResponse(500, if body.error != "" then body.error else InternalError)
    else
      var b := body.value;
      if !Truthy(b.viewingKey) then ErrorResponse(400, KeyRequiredError)
      else
        var validation := ZcashUtils.ValidateUFVK(AsArgument(b.viewingKey));
        if !validation.isValid then
          ErrorResponse(400, if validation.error.Some? && validation.error.value != "" then validation.error.value else InvalidKeyFallback)
        else
          var start := PeriodStart(b.scanPeriod, OrDefault(b.startHeight, CurrentHeight - 1152));
          var end := OrDefault(b.endHeight, CurrentHeight);
          ScanResponse(validation.network, start, end, end - start, "demonstration_mode", [], Balance(0, 0, 0))
  }

  /**
   * The checks come in order: a missing key is refused before its format is
   * looked at, a key `validateUFVK` rejects is refused with that function's
   * message, and every other request succeeds with the key's network, the
   * range's width as `totalBlocks`, no transactions and a zero balance.
   */
  lemma PostCases(b: Body)
    ensures !Truthy(b.viewingKey) ==> Post(Success(b)) == ErrorResponse(400, KeyRequiredError)
    ensures var v := ZcashUtils.ValidateUFVK(AsArgument(b.viewingKey));
      Truthy(b.viewingKey) && !v.isValid ==> Post(Success(b)) == ErrorResponse(400, v.error.value)
    ensures var v := ZcashUtils.ValidateUFVK(AsArgument(b.viewingKey));
      Post(Success(b)).ScanResponse? <==> Truthy(b.viewingKey) && v.isValid
    ensures var r := Post(Success(b));
      r.ScanResponse? ==>
        && r.viewingKeyNetwork.Some? && r.totalBlocks == r.endHeight - r.startHeight
        && r.transactions == [] && r.balance == Balance(0, 0, 0)
  {
    var v := ZcashUtils.ValidateUFVK(AsArgument(b.viewingKey));
    var r := Post(Success(b));
    if !Truthy(b.viewingKey) {
      assert r == ErrorResponse(400, KeyRequiredError);
    } else if !v.isValid {
      assert r == ErrorResponse(400, v.error.value);
    } else {
      var start := PeriodStart(b.scanPeriod, OrDefault(b.startHeight, CurrentHeight - 1152));
      var end := OrDefault(b.endHeight, CurrentHeight);
      assert r == ScanResponse(v.network, start, end, end - start, "demonstration_mode", [], Balance(0, 0, 0));
    }
  }

  /**
   * With a known period the start is the current height less that period's
   * `getBlocksToScan`, whatever start height was sent.
   */
  lemma PeriodAgreesWithBlocksToScan(scanPeriod: string, start: int, currentHeight: Option<int>)
    requires ZcashWasm.KnownPeriod(scanPeriod)
    ensures CurrentHeight - PeriodStart(Some(scanPeriod), start) == ZcashWasm.GetBlocksToScan(scanPeriod, currentHeight)
  {
  }

  /** With no period and no heights the range is the last 1152 blocks up to the current height. */
  lemma DefaultRange(viewingKey: Json)
    ensures var r := Post(Success(Body(viewingKey, None, None, None)));
      r.ScanResponse? ==> r.startHeight == CurrentHeight - 1152 && r.endHeight == CurrentHeight && r.totalBlocks == 1152
  {
  }

  /** An unknown or empty period leaves the start as sent (or its default). */
  lemma UnknownPeriodKeepsStart(scanPeriod: Option<string>, start: int)
    requires scanPeriod.Some? ==> !ZcashWasm.KnownPeriod(scanPeriod.value)
    ensures PeriodStart(scanPeriod, start) == start
  {
  }
}
