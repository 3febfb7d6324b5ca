/**
 * `ZcashLightClient`: the imported viewing key, the simulated sync with its
 * progress reports, and memo decryption through a global WebAssembly module.
 *
 * The `onProgress` callback is the datatype `Callback`: either absent, or a
 * function telling what its `k`-th invocation throws (`None`: it returns).
 * Each invocation receives one progress record; `reports` lists them in
 * order. Timers, the lightwalletd connection and `sessionStorage` are left
 * out, and so are the human-readable progress messages except the error
 * message.
 */
module LightClient {
  import opened Wrappers
  import opened JsString

  datatype Network = Mainnet | Testnet

  datatype LightwalletdConfig = LightwalletdConfig(url: string, network: Network)

  datatype TxKind = Received | Sent

  datatype ZcashTransaction = ZcashTransaction(txid: string, height: int, timestamp: int, amount: int, memo: string, kind: TxKind)

  datatype ShieldedBalance = ShieldedBalance(confirmed: int, unconfirmed: int, total: int)

  /** A thrown value: an `Error` carries a message, anything else does not. */
  datatype Thrown = ErrorObj(message: string) | OtherValue

  datatype SyncStatus = Connecting | Syncing | Complete | Failed(message: string)

  /** `WalletSyncProgress`; `None` as the percentage is NaN. */
  datatype SyncProgress = SyncProgress(currentHeight: int, targetHeight: int, percentComplete: Option<real>,
                                       status: SyncStatus, transactionsFound: nat)

  datatype Callback = NoCallback | OnProgress(throwsAt: nat -> Option<Thrown>)

  const NoKeyError := "No viewing key imported. Call importUFVK() first."
  const NoKeyDecryptError := "No viewing key imported"
  const WasmNotLoadedError := "WASM module not loaded"
  const DecryptionFailed := "Decryption failed"
  const UnknownError := "Unknown error occurred"
  const MainnetUrl := "https://zcash-mainnet.chainsafe.dev"
  const TestnetUrl := "https://zcash-testnet.chainsafe.dev"

  /** `endHeight || startHeight`: an absent or zero end height falls back to the start. */
  function Target(startHeight: int, endHeight: Option<int>): (target: int)
    ensures endHeight.Some? && endHeight.value != 0 ==> target == endHeight.value
    ensures endHeight.None? || endHeight.value == 0 ==> target == startHeight
  {
    if endHeight.Some? && endHeight.value != 0 then endHeight.value else startHeight
  }

  /** `Math.max(1, Math.floor(totalBlocks / 20))`: about twenty steps, at least one block each. */
  function Step(startHeight: int, endHeight: int): (step: int)
    ensures step >= 1
    ensures endHeight - startHeight >= 40 ==> 20 * step <= endHeight - startHeight < 20 * step + 20
    ensures endHeight - startHeight < 40 ==> step == 1
  {
    Max(1, (endHeight - startHeight) / 20)
  }

  /** `Math.min(100, (height - startHeight) / totalBlocks * 100)`, computed exactly; 0 / 0 is NaN. */
  function ScanPercent(startHeight: int, endHeight: int, height: int): Option<real>
  {
    if endHeight - startHeight == 0 then None
    else
      var p := (height - startHeight) as real / (endHeight - startHeight) as real * 100.0;
      Some(if p < 100.0 then p else 100.0)
  }

  function ConnectingProgress(startHeight: int, target: int): SyncProgress
  {
    SyncProgress(startHeight, target, Some(0.0), Connecting, 0)
  }

  function ScanProgress(startHeight: int, endHeight: int, height: int, found: nat): SyncProgress
  {
    SyncProgress(height, endHeight, ScanPercent(startHeight, endHeight, height), Syncing, found)
  }

  function CompleteProgress(endHeight: int, found: nat): SyncProgress
  {
    SyncProgress(endHeight, endHeight, Some(100.0), Complete, found)
  }

  /** The reports of the scanning loop from `height` on: one per visited height. */
  function ScanReports(startHeight: int, endHeight: int, height: int, step: int, found: nat): seq<SyncProgress>
    requires step >= 1
    decreases if height > endHeight then 0 else endHeight - height + 1
  {
    if height > endHeight then []
    else [ScanProgress(startHeight, endHeight, height, found)] + ScanReports(startHeight, endHeight, height + step, step, found)
  }

  /** Everything `simulateSync` reports when no callback throws. */
  function SimulatedTrace(startHeight: int, endHeight: int, found: nat): seq<SyncProgress>
  {
    [SyncProgress(startHeight, endHeight, Some(0.0), Syncing, 0)]
      + ScanReports(startHeight, endHeight, startHeight, Step(startHeight, endHeight), found)
      + [CompleteProgress(endHeight, found)]
  }

  /** Everything `sync` reports when no callback throws. */
  function SyncTrace(startHeight: int, target: int, found: nat): seq<SyncProgress>
  {
    [ConnectingProgress(startHeight, target)] + SimulatedTrace(startHeight, target, found)
  }

  /**
   * The loop visits `height`, `height + step`, ... up to `endHeight`: every
   * report lies in `[height, endHeight]`, consecutive reports are `step`
   * apart, the first is `height` itself, the last is within a step of the
   * end, and each percentage lies in 0..100.
   */
  lemma {:induction false} ScanReportsShape(startHeight: int, endHeight: int, height: int, step: int, found: nat)
    requires step >= 1 && startHeight <= height
    ensures var r := ScanReports(startHeight, endHeight, height, step, found);
      && (height <= endHeight <==> |r| > 0)
      && (|r| > 0 ==> r[0].currentHeight == height && endHeight < r[|r| - 1].currentHeight + step)
      && (forall i | 0 <= i < |r| :: height <= r[i].currentHeight <= endHeight && r[i].status == Syncing)
      && (forall i | 0 <= i < |r| - 1 :: r[i + 1].currentHeight == r[i].currentHeight + step)
      && (forall i | 0 <= i < |r| :: r[i].percentComplete.Some? ==> 0.0 <= r[i].percentComplete.value <= 100.0)
    decreases if height > endHeight then 0 else endHeight - height + 1
  {
    if height <= endHeight {
      var r := ScanReports(startHeight, endHeight, height, step, found);
      var rest := ScanReports(startHeight, endHeight, height + step, step, found);
      ScanReportsShape(startHeight, endHeight, height + step, step, found);
      assert r == [ScanProgress(startHeight, endHeight, height, found)] + rest;
      PercentInRange(startHeight, endHeight, height);
      assert forall i | 1 <= i < |r| :: r[i] == rest[i - 1];
    }
  }

  lemma PercentInRange(startHeight: int, endHeight: int, height: int)
    requires startHeight <= height <= endHeight
    ensures var p := ScanPercent(startHeight, endHeight, height);
      p.Some? ==> 0.0 <= p.value <= 100.0
  {
    if endHeight - startHeight != 0 {
      var num := (height - startHeight) as real;
      var den := (endHeight - startHeight) as real;
      assert 0.0 <= num && 0.0 < den;
      assert 0.0 <= num / den;
    }
  }

  /** A sync that nobody interrupts ends complete, at the target, with 100 percent and the found count. */
  lemma SyncTraceEnds(startHeight: int, target: int, found: nat)
    ensures var t := SyncTrace(startHeight, target, found);
      |t| >= 3 && t[0].status == Connecting && t[0].percentComplete == Some(0.0)
      && t[|t| - 1] == CompleteProgress(target, found)
      && t[|t| - 1].currentHeight == t[|t| - 1].targetHeight == target
      && (forall i | 0 <= i < |t| :: t[i].targetHeight == target)
  {
    var scans := ScanReports(startHeight, target, startHeight, Step(startHeight, target), found);
    ScanTargets(startHeight, target, startHeight, Step(startHeight, target), found);
    var t := SyncTrace(startHeight, target, found);
    assert t == [ConnectingProgress(startHeight, target), SyncProgress(startHeight, target, Some(0.0), Syncing, 0)]
                + scans + [CompleteProgress(target, found)];
    forall i | 0 <= i < |t|
      ensures t[i].targetHeight == target
    {
      if 2 <= i < |t| - 1 {
        assert t[i] == scans[i - 2];
      }
    }
  }

  lemma {:induction false} ScanTargets(startHeight: int, endHeight: int, height: int, step: int, found: nat)
    requires step >= 1
    ensures forall p | p in ScanReports(startHeight, endHeight, height, step, found) :: p.targetHeight == endHeight
    decreases if height > endHeight then 0 else endHeight - height + 1
  {
    if height <= endHeight {
      ScanTargets(startHeight, endHeight, height + step, step, found);
    }
  }

  /** `f(j)` returns normally for every invocation `j < n`. */
  predicate NoThrowBefore(f: nat -> Option<Thrown>, n: nat)
  {
    forall j | 0 <= j < n :: f(j).None?
  }

  /** `error instanceof Error ? error.message : 'Unknown error occurred'` */
  function MessageOf(e: Thrown): string
  {
    if e.ErrorObj? then e.message else UnknownError
  }

  /** `{...this.syncProgress, status: 'error', message}` */
  function Errored(p: SyncProgress, e: Thrown): SyncProgress
  {
    p.(status := Failed(MessageOf(e)))
  }

  /**
   * Inside the scan: `reports` (after `before`) followed by the `pending`
   * records make up the whole trace, no callback has thrown yet, and the
   * progress is the record reported last.
   */
  ghost predicate Reporting(f: nat -> Option<Thrown>, before: seq<SyncProgress>, reports: seq<SyncProgress>,
                            pending: seq<SyncProgress>, whole: seq<SyncProgress>, progress: SyncProgress)
  {
    && |before| < |reports| && reports + pending == whole
    && NoThrowBefore(f, |reports|) && progress == reports[|reports| - 1]
  }

  /**
   * How a simulated scan ends against `whole`, everything reported before it
   * followed by its uninterrupted trace: it reported a prefix of `whole`
   * beyond `before`, every callback but the last returned, the last one's
   * error (if any) is what it throws, it went all the way unless it threw,
   * and the progress is the last record reported.
   */
  ghost predicate SimulatedOutcome(f: nat -> Option<Thrown>, before: seq<SyncProgress>, whole: seq<SyncProgress>,
                                   thrown: Option<Thrown>, reports: seq<SyncProgress>, progress: Option<SyncProgress>)
  {
    && |before| < |reports| <= |whole| && reports == whole[..|reports|]
    && NoThrowBefore(f, |reports| - 1)
    && thrown == f(|reports| - 1)
    && (thrown.None? ==> |reports| == |whole|)
    && progress == Some(reports[|reports| - 1])
  }

  /** Reporting `p`, the next record of `whole`, after `reports` went out without a throw. */
  lemma AfterReport(f: nat -> Option<Thrown>, before: seq<SyncProgress>, reports: seq<SyncProgress>, p: SyncProgress,
                    pending: seq<SyncProgress>, whole: seq<SyncProgress>)
    requires |before| <= |reports| && NoThrowBefore(f, |reports|) && reports + [p] + pending == whole
    ensures f(|reports|).Some? || pending == [] ==> SimulatedOutcome(f, before, whole, f(|reports|), reports + [p], Some(p))
    ensures f(|reports|).None? ==> Reporting(f, before, reports + [p], pending, whole, p)
  {
    var r := reports + [p];
    assert r + pending == whole;
  }

  /**
   * How a keyed `sync` with a callback `f` ends, against the uninterrupted
   * `trace`: with no error it reported the whole trace and ends on its last
   * record; a callback that never throws lets it finish; a throw from the
   * `connecting` report escapes with nothing more reported; a throw from
   * report `k - 1` inside the scan adds the error version of that record as
   * report `k`, and the error rethrown is the one that report's own callback
   * throws, else the original one.
   */
  predicate SyncOutcome(f: nat -> Option<Thrown>, trace: seq<SyncProgress>, outcome: Option<Thrown>,
                        reports: seq<SyncProgress>, progress: Option<SyncProgress>)
  {
    var k := |reports| - 1;
    && 0 < |trace| && 0 <= k
    && (outcome.None? ==> reports == trace && progress == Some(trace[|trace| - 1]))
    && (NoThrowBefore(f, |trace|) ==> outcome.None?)
    && (outcome.Some? && k == 0 ==> reports == trace[..1] && outcome == f(0) && progress == Some(trace[0]))
    && (outcome.Some? && k > 0 ==>
          && k <= |trace| && NoThrowBefore(f, k - 1) && f(k - 1).Some?
          && reports == trace[..k] + [Errored(trace[k - 1], f(k - 1).value)]
          && progress == Some(reports[k])
          && outcome == (if f(k).Some? then f(k) else f(k - 1)))
  }

  /** The connecting report's callback threw. */
  lemma ThrewConnecting(f: nat -> Option<Thrown>, trace: seq<SyncProgress>, reports: seq<SyncProgress>)
    requires 0 < |trace| && reports == trace[..1] && f(0).Some?
    ensures SyncOutcome(f, trace, f(0), reports, Some(trace[0]))
  {
  }

  /** The scan reported the whole trace without a throw. */
  lemma Finished(f: nat -> Option<Thrown>, trace: seq<SyncProgress>)
    requires 0 < |trace|
    ensures SyncOutcome(f, trace, None, trace, Some(trace[|trace| - 1]))
  {
  }

  /** Report `k - 1` threw inside the scan and the error record went out as report `k`. */
  lemma ThrewScanning(f: nat -> Option<Thrown>, trace: seq<SyncProgress>, scanned: seq<SyncProgress>, outcome: Option<Thrown>)
    requires 1 < |scanned| <= |trace| && scanned == trace[..|scanned|]
    requires NoThrowBefore(f, |scanned| - 1) && f(|scanned| - 1).Some?
    requires outcome == (if f(|scanned|).Some? then f(|scanned|) else f(|scanned| - 1))
    ensures var e := Errored(trace[|scanned| - 1], f(|scanned| - 1).value);
      SyncOutcome(f, trace, outcome, scanned + [e], Some(e))
  {
  }

  /** What `JSON.parse(wasm.decrypt_memo(ufvk, txHex))` yields. */
  datatype WasmResult = WasmResult(success: bool, memo: string, error: Option<string>)

  class ZcashLightClient {
    var config: LightwalletdConfig
    var ufvk: Option<string>
    var syncProgress: Option<SyncProgress>
    var transactions: seq<ZcashTransaction>
    var balance: ShieldedBalance

    /** A new client: no key, no progress, no transactions, a zero balance. */
    constructor (config: LightwalletdConfig)
      ensures this.config == config
      ensures ufvk == None && syncProgress == None && transactions == [] && balance == ShieldedBalance(0, 0, 0)
    {
      this.config := config;
      ufvk := None;
      syncProgress := None;
      transactions := [];
      balance := ShieldedBalance(0, 0, 0);
    }

    /** `!this.ufvk` is false: a key is imported and is not the empty string. */
    predicate HasKey()
      reads this
    {
      ufvk.Some? && ufvk.value != ""
    }

    /** `importUFVK(ufvk)` */
    method ImportUFVK(key: string)
      modifies this
      ensures ufvk == Some(key)
      ensures config == old(config) && syncProgress == old(syncProgress)
      ensures transactions == old(transactions) && balance == old(balance)
    {
      ufvk := Some(key);
    }

    /** `getUFVK()` */
    function GetUFVK(): Option<string>
      reads this
    {
      ufvk
    }

    /** `clearUFVK()` */
    method ClearUFVK()
      modifies this
      ensures ufvk == None
      ensures config == old(config) && syncProgress == old(syncProgress)
      ensures transactions == old(transactions) && balance == old(balance)
    {
      ufvk := None;
    }

    /** Calls the callback, if any, with `p` as invocation number `|reports|`. */
    method Report(callback: Callback, p: SyncProgress, reports: seq<SyncProgress>)
      returns (thrown: Option<Thrown>, reports': seq<SyncProgress>)
      ensures callback.NoCallback? ==> thrown == None && reports' == reports
      ensures callback.OnProgress? ==> reports' == reports + [p] && thrown == callback.throwsAt(|reports|)
    {
      if callback.NoCallback? {
        return None, reports;
      }
      thrown := callback.throwsAt(|reports|);
      reports' := reports + [p];
    }

    /**
     * `simulateSync(startHeight, endHeight, onProgress)`: reports the start,
     * one record per visited height, then completion. A throwing callback
     * ends it at once, with the record it was given as the progress.
     */
    method SimulateSync(startHeight: int, endHeight: int, callback: Callback, before: seq<SyncProgress>)
      returns (thrown: Option<Thrown>, reports: seq<SyncProgress>)
      requires callback.OnProgress? ==> NoThrowBefore(callback.throwsAt, |before|)
      modifies this
      ensures config == old(config) && ufvk == old(ufvk) && transactions == old(transactions) && balance == old(balance)
      ensures callback.NoCallback? ==>
                thrown == None && reports == before && syncProgress == Some(CompleteProgress(endHeight, |transactions|))
      ensures callback.OnProgress? ==>
                SimulatedOutcome(callback.throwsAt, before, before + SimulatedTrace(startHeight, endHeight, |transactions|),
                                 thrown, reports, syncProgress)
    {
      var found := |transactions|;
      ghost var whole := before + SimulatedTrace(startHeight, endHeight, found);
      var step := Step(startHeight, endHeight);
      ghost var pending := ScanReports(startHeight, endHeight, startHeight, step, found) + [CompleteProgress(endHeight, found)];
      syncProgress := Some(SyncProgress(startHeight, endHeight, Some(0.0), Syncing, 0));
      if callback.OnProgress? {
        AfterReport(callback.throwsAt, before, before, syncProgress.value, pending, whole);
      }
      thrown, reports := Report(callback, syncProgress.value, before);
      if thrown.Some? {
        return;
      }
      var height := startHeight;
      while height <= endHeight
        invariant syncProgress.Some?
        invariant pending == ScanReports(startHeight, endHeight, height, step, found) + [CompleteProgress(endHeight, found)]
        invariant callback.NoCallback? ==> reports == before
        invariant callback.OnProgress? ==> Reporting(callback.throwsAt, before, reports, pending, whole, syncProgress.value)
        invariant config == old(config) && ufvk == old(ufvk) && transactions == old(transactions) && balance == old(balance)
        decreases endHeight - height + 1
      {
        syncProgress := Some(ScanProgress(startHeight, endHeight, height, found));
        pending := ScanReports(startHeight, endHeight, height + step, step, found) + [CompleteProgress(endHeight, found)];
        if callback.OnProgress? {
          AfterReport(callback.throwsAt, before, reports, syncProgress.value, pending, whole);
        }
        thrown, reports := Report(callback, syncProgress.value, reports);
        if thrown.Some? {
          return;
        }
        height := height + step;
      }
      syncProgress := Some(CompleteProgress(endHeight, found));
      if callback.OnProgress? {
        AfterReport(callback.throwsAt, before, reports, syncProgress.value, [], whole);
      }
      thrown, reports := Report(callback, syncProgress.value, reports);
    }

    /**
     * `sync(startHeight, endHeight, onProgress)`. Without a key it throws and
     * changes nothing. Otherwise it reports `connecting`, runs the simulated
     * scan towards `endHeight || startHeight`, and ends `complete`; when a
     * callback inside the scan throws, the progress becomes the error record,
     * which is reported in turn, and the error is rethrown (or the error
     * record's own callback error, if that one throws too). A throw from the
     * first, `connecting`, report escapes before the `try`.
     */
    method Sync(startHeight: int, endHeight: Option<int>, callback: Callback)
      returns (outcome: Option<Thrown>, reports: seq<SyncProgress>)
      modifies this
      ensures config == old(config) && ufvk == old(ufvk) && transactions == old(transactions) && balance == old(balance)
      ensures !old(HasKey()) ==> outcome == Some(ErrorObj(NoKeyError)) && reports == [] && syncProgress == old(syncProgress)
      ensures old(HasKey()) && callback.NoCallback? ==>
                outcome == None && reports == [] && syncProgress == Some(CompleteProgress(Target(startHeight, endHeight), |transactions|))
      ensures old(HasKey()) && callback.OnProgress? ==>
                SyncOutcome(callback.throwsAt, SyncTrace(startHeight, Target(startHeight, endHeight), |transactions|),
                            outcome, reports, syncProgress)
    {
      if !HasKey() {
        return Some(ErrorObj(NoKeyError)), [];
      }
      var target := Target(startHeight, endHeight);
      ghost var trace := SyncTrace(startHeight, target, |transactions|);
      syncProgress := Some(ConnectingProgress(startHeight, target));
      outcome, reports := Report(callback, syncProgress.value, []);
      if outcome.Some? {
        ThrewConnecting(callback.throwsAt, trace, reports);
        return;
      }
      var thrown;
      thrown, reports := SimulateSync(startHeight, target, callback, reports);
      if thrown.None? {
        SyncTraceEnds(startHeight, target, |transactions|);
        if callback.OnProgress? {
          Finished(callback.throwsAt, trace);
        }
        return None, reports;
      }
      ghost var scanned := reports;
      syncProgress := Some(Errored(syncProgress.value, thrown.value));
      var again;
      again, reports := Report(callback, syncProgress.value, reports);
      outcome := if again.Some? then again else thrown;
      ThrewScanning(callback.throwsAt, trace, scanned, outcome);
    }

    /**
     * `decryptMemo(txHex)`: needs an imported key, then the global module's
     * `decrypt_memo`; `wasm` is that global (`None` when it or its
     * `decrypt_memo` is absent). A call of it either returns the parsed
     * result record or throws (a panic inside the module, or a `JSON.parse`
     * error), and such a throw escapes unchanged. `Failure` is what is thrown.
     */
    method DecryptMemo(txHex: string, wasm: Option<(string, string) -> Result<WasmResult, Thrown>>)
      returns (r: Result<string, Thrown>)
      ensures !HasKey() ==> r == Failure(ErrorObj(NoKeyDecryptError))
      ensures HasKey() && wasm.None? ==> r == Failure(ErrorObj(WasmNotLoadedError))
      ensures HasKey() && wasm.Some? && wasm.value(ufvk.value, txHex).Failure? ==>
                r == Failure(wasm.value(ufvk.value, txHex).error)
      ensures HasKey() && wasm.Some? && wasm.value(ufvk.value, txHex).Success? ==>
                var w := wasm.value(ufvk.value, txHex).value;
                && (r.Success? <==> w.success)
                && (w.success ==> r.value == w.memo)
                && (!w.success ==> r.error == ErrorObj(if w.error.Some? && w.error.value != "" then w.error.value else DecryptionFailed))
    {
      if !HasKey() {
        return Failure(ErrorObj(NoKeyDecryptError));
      }
      if wasm.Some? {
        var call := wasm.value(ufvk.value, txHex);
        if call.Failure? {
          return Failure(call.error);
        }
        var result := call.value;
        if result.success {
          return Success(result.memo);
        } else {
          var message := if result.error.Some? && result.error.value != "" then result.error.value else DecryptionFailed;
          return Failure(ErrorObj(message));
        }
      }
      return Failure(ErrorObj(WasmNotLoadedError));
    }
  }

  /** `createLightClient(network)`: the mainnet server exactly for mainnet. */
  method CreateLightClient(network: Network) returns (client: ZcashLightClient)
    ensures fresh(client)
    ensures client.config.network == network
    ensures client.config.url == (if network == Mainnet then MainnetUrl else TestnetUrl)
    ensures client.ufvk == None && client.syncProgress == None && client.transactions == []
  {
    var url := if network == Mainnet then MainnetUrl else TestnetUrl;
    client := new ZcashLightClient(LightwalletdConfig(url, network));
  }

  /** Importing a key and reading it back gives the key; clearing it leaves none. */
  method KeyLifecycle(client: ZcashLightClient, key: string) returns (read: Option<string>, cleared: Option<string>)
    modifies client
    ensures read == Some(key) && cleared == None
  {
    client.ImportUFVK(key);
    read := client.GetUFVK();
    client.ClearUFVK();
    cleared := client.GetUFVK();
  }
}
