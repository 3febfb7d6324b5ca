/**
 * The browser-side loader of the WebAssembly module: the `initWasm`
 * singleton, `decryptMemo` and `scanForTransactions` while the module is
 * disabled, and the scan-period table `getBlocksToScan`.
 */
module ZcashWasm {
  import opened Wrappers

  const NotInitializedError := "WebAssembly module not initialized"

  /** `DecryptResult` as the loader returns it. */
  datatype DecryptResult = DecryptResult(success: bool, memo: string, error: Option<string>)

  /**
   * The module-level state: `wasmModule` (here only whether it is non-null)
   * and `initPromise` (whether it has been created). `initRuns` counts how
   * often the initialisation body has run.
   */
  class WasmLoader {
    var moduleLoaded: bool
    var initStarted: bool
    ghost var initRuns: nat

    /** The module is never loaded, and the body has run once exactly when the promise exists. */
    ghost predicate Valid()
      reads this
    {
      !moduleLoaded && initRuns == (if initStarted then 1 else 0)
    }

    /** The state at page load: both variables null. */
    constructor ()
      ensures Valid()
      ensures !moduleLoaded && !initStarted && initRuns == 0
    {
      moduleLoaded := false;
      initStarted := false;
      initRuns := 0;
    }

    /**
     * `initWasm()`: returns at once when the module is loaded, awaits the
     * existing promise when there is one, and otherwise runs the body, which
     * leaves the module null. The body cannot throw: it only logs.
     */
    method InitWasm()
      requires Valid()
      modifies this
      ensures Valid()
      ensures initStarted && !moduleLoaded
      ensures initRuns == 1
      ensures old(initStarted) ==> initRuns == old(initRuns)
    {
      if moduleLoaded {
        return;
      }
      if initStarted {
        return;
      }
      initStarted := true;
      initRuns := initRuns + 1;
      moduleLoaded := false;
    }

    /**
     * `decryptMemo(viewingKey, txHex)`: after `initWasm` the module is still
     * null, so the result is the not-initialised error and nothing is thrown.
     */
    method DecryptMemo(viewingKey: string, txHex: string) returns (r: DecryptResult)
      requires Valid()
      modifies this
      ensures Valid() && initStarted
      ensures r == DecryptResult(false, "", Some(NotInitializedError))
    {
      InitWasm();
      if !moduleLoaded {
        return DecryptResult(false, "", Some(NotInitializedError));
      }
      assert false;
    }

    /**
     * `scanForTransactions(viewingKey, blocksToScan)`: after `initWasm` the
     * module is still null, so the call throws; `Failure` is that error.
     */
    method ScanForTransactions(viewingKey: string, blocksToScan: int) returns (r: Result<string, string>)
      requires Valid()
      modifies this
      ensures Valid() && initStarted
      ensures r == Failure(NotInitializedError)
    {
      InitWasm();
      if !moduleLoaded {
        return Failure(NotInitializedError);
      }
      assert false;
    }
  }

  /** Any number of calls in a row leave the body run once and the module null. */
  method InitMany(loader: WasmLoader, calls: nat)
    requires loader.Valid()
    modifies loader
    ensures loader.Valid()
    ensures calls > 0 ==> loader.initStarted && loader.initRuns == 1
    ensures calls == 0 ==> loader.initStarted == old(loader.initStarted)
  {
    var k := 0;
    while k < calls
      invariant 0 <= k <= calls
      invariant loader.Valid()
      invariant k > 0 ==> loader.initStarted && loader.initRuns == 1
      invariant k == 0 ==> loader.initStarted == old(loader.initStarted)
    {
      loader.InitWasm();
      k := k + 1;
    }
  }

  const BlocksPerHour := 48

  predicate KnownPeriod(scanPeriod: string)
  {
    scanPeriod in {"last-1-hour", "last-6-hours", "last-24-hours", "last-7-days", "since-birthday"}
  }

  /**
   * `getBlocksToScan(scanPeriod, currentHeight)`: hours of 48 blocks; an
   * unknown period scans one hour and `currentHeight` plays no part.
   */
  function GetBlocksToScan(scanPeriod: string, currentHeight: Option<int>): (blocks: nat)
    ensures blocks > 0 && blocks % BlocksPerHour == 0
    ensures !KnownPeriod(scanPeriod) ==> blocks == BlocksPerHour
    ensures BlocksPerHour <= blocks <= BlocksPerHour * 24 * 30
  {
    match scanPeriod
    case "last-1-hour" => BlocksPerHour
    case "last-6-hours" => BlocksPerHour * 6
    case "last-24-hours" => BlocksPerHour * 24
    case "last-7-days" => BlocksPerHour * 24 * 7
    case "since-birthday" => BlocksPerHour * 24 * 30
    case _ => BlocksPerHour
  }

  /** The current height plays no part: two heights give the same number of blocks for every period. */
  lemma HeightIgnored(scanPeriod: string, h1: Option<int>, h2: Option<int>)
    ensures GetBlocksToScan(scanPeriod, h1) == GetBlocksToScan(scanPeriod, h2)
  {
  }

  /** The longer the period, the more blocks: one hour < six hours < a day < a week < thirty days. */
  lemma PeriodsOrdered(currentHeight: Option<int>)
    ensures GetBlocksToScan("last-1-hour", currentHeight) < GetBlocksToScan("last-6-hours", currentHeight)
              < GetBlocksToScan("last-24-hours", currentHeight) < GetBlocksToScan("last-7-days", currentHeight)
              < GetBlocksToScan("since-birthday", currentHeight)
  {
  }
}
