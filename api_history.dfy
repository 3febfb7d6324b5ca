/**
 * `getHistoricalStats`: per-day transaction totals, shielded volume and an
 * estimated shielded share for the last `days` days, oldest day first.
 *
 * Day `i` (0 = the most recent) covers the 1152 block heights ending at
 * `best - 1152 * i`. Its block headers are fetched in batches of at most 100
 * heights, which give the exact totals; 20 evenly strided headers are then
 * sampled, the first 10 transaction ids of each sampled block are looked up,
 * and the shielded share found there is extrapolated to the whole day.
 *
 * The remote calls (`getBlocksRange`, `getBlock`, `getTransaction`) are total
 * functions given as parameters; a failed call is an empty page or `None`.
 */
module HistoricalStats {
  import opened Wrappers
  import opened JsString
  import opened TxModel

  const BlocksPerDay: nat := 1152
  const RangeBatch: nat := 100
  const SampleSize: nat := 20
  const CheckedPerBlock: nat := 10

  /** A block header of `getBlocksRange`; an absent `shielded_value_delta_total` is 0. */
  datatype BlockHeader = BlockHeader(id: int, time: string, transactionCount: nat, shieldedValueDeltaTotal: int)

  /** The part of `getBlock` that is read: the transaction ids (`transactions || []`). */
  datatype BlockDetail = BlockDetail(transactions: seq<string>)

  /**
   * One entry of the result. `date` is the `time` of the day's first header
   * (its locale formatting is not modelled) and `volumeZat` the shielded
   * volume in zatoshis (the source divides it by 10^8).
   */
  datatype DayStats = DayStats(date: string, total: nat, shielded: nat, volumeZat: nat, score: int)

  /** `getBlocksRange(startHeight, limit)` */
  type RangeSource = (int, nat) -> seq<BlockHeader>
  /** `getBlock(height)` */
  type BlockSource = int -> Option<BlockDetail>
  /** `getTransaction(txid)`, already reduced to `tx.transaction || tx` */
  type TxSource = string -> Option<Transaction>

  // ---------------------------------------------------------------------------
  // Day ranges and batches.

  /** The inclusive height range `[dayStartHeight, dayEndHeight]` of day `i`. */
  function DayRange(best: int, i: nat): (r: (int, int))
    ensures r.1 - r.0 + 1 == BlocksPerDay
    ensures r.1 == best - BlocksPerDay * i
    ensures i > 0 ==> r.1 + 1 == DayRange(best, i - 1).0
  {
    var dayEnd := best - i * BlocksPerDay;
    (dayEnd - BlocksPerDay + 1, dayEnd)
  }

  /** The `getBlocksRange` requests of the `for (h = lo; h <= hi; h += 100)` loop: start and limit. */
  function Requests(h: int, hi: int): seq<(int, nat)>
    decreases hi - h + 1
  {
    if h > hi then [] else [(h, Min(RangeBatch, hi - h + 1))] + Requests(h + RangeBatch, hi)
  }

  function SumLimits(reqs: seq<(int, nat)>): nat
  {
    if reqs == [] then 0 else reqs[0].1 + SumLimits(reqs[1..])
  }

  /** `batchResults.flat()` */
  function FetchAll(ranges: RangeSource, reqs: seq<(int, nat)>): seq<BlockHeader>
  {
    if reqs == [] then [] else ranges(reqs[0].0, reqs[0].1) + FetchAll(ranges, reqs[1..])
  }

  /** All headers of the heights `lo..hi`, as fetched batch by batch. */
  function DayBlocks(ranges: RangeSource, lo: int, hi: int): seq<BlockHeader>
  {
    FetchAll(ranges, Requests(lo, hi))
  }

  /**
   * The batches tile `[h, hi]`: the first starts at `h`, each is 1 to 100
   * heights long and starts where the previous one ended, and together they
   * cover exactly `hi - h + 1` heights.
   */
  lemma {:induction false} RequestsTile(h: int, hi: int)
    requires h <= hi + 1
    ensures |Requests(h, hi)| == if h > hi then 0 else (hi - h) / RangeBatch + 1
    ensures SumLimits(Requests(h, hi)) == hi - h + 1
    ensures h <= hi ==> Requests(h, hi)[0].0 == h
    ensures forall k | 0 <= k < |Requests(h, hi)| :: 1 <= Requests(h, hi)[k].1 <= RangeBatch
    ensures forall k | 0 <= k < |Requests(h, hi)| - 1 ::
              Requests(h, hi)[k + 1].0 == Requests(h, hi)[k].0 + Requests(h, hi)[k].1
    decreases hi - h + 1
  {
    if h <= hi {
      var rest := Requests(h + RangeBatch, hi);
      if h + RangeBatch <= hi + 1 {
        RequestsTile(h + RangeBatch, hi);
      } else {
        assert rest == [];
      }
      assert Requests(h, hi)[1..] == rest;
    }
  }

  /** A day is fetched in 12 requests: eleven of 100 heights and a last one of 52. */
  lemma DayRequests(best: int, i: nat)
    ensures var reqs := Requests(DayRange(best, i).0, DayRange(best, i).1);
      && |reqs| == 12
      && (forall k | 0 <= k < 11 :: reqs[k].1 == RangeBatch)
      && reqs[11].1 == 52
  {
    var (lo, hi) := DayRange(best, i);
    RequestsTile(lo, hi);
    var reqs := Requests(lo, hi);
    forall k | 0 <= k < 12 ensures reqs[k] == (lo + RangeBatch * k, Min(RangeBatch, BlocksPerDay - RangeBatch * k)) {
      RequestsStart(lo, hi, k);
    }
  }

  lemma {:induction false} RequestsStart(h: int, hi: int, k: nat)
    requires k < |Requests(h, hi)|
    ensures Requests(h, hi)[k] == (h + RangeBatch * k, Min(RangeBatch, hi - h - RangeBatch * k + 1))
    decreases k
  {
    if k > 0 {
      RequestsStart(h + RangeBatch, hi, k - 1);
    }
  }

  /** The batch loop of one day. */
  method FetchDayBlocks(ranges: RangeSource, lo: int, hi: int) returns (blocks: seq<BlockHeader>)
    ensures blocks == DayBlocks(ranges, lo, hi)
  {
    blocks := [];
    var h := lo;
    while h <= hi
      invariant blocks + FetchAll(ranges, Requests(h, hi)) == DayBlocks(ranges, lo, hi)
      decreases hi - h + 1
    {
      var limit := Min(RangeBatch, hi - h + 1);
      blocks := blocks + ranges(h, limit);
      h := h + RangeBatch;
    }
  }

  // ---------------------------------------------------------------------------
  // Exact totals.

  function TotalTxs(blocks: seq<BlockHeader>): nat
  {
    if blocks == [] then 0 else TotalTxs(blocks[..|blocks| - 1]) + blocks[|blocks| - 1].transactionCount
  }

  function Abs(x: int): nat { if x < 0 then -x else x }

  function TotalVolume(blocks: seq<BlockHeader>): nat
  {
    if blocks == [] then 0 else TotalVolume(blocks[..|blocks| - 1]) + Abs(blocks[|blocks| - 1].shieldedValueDeltaTotal)
  }

  /** The `forEach` over the day's headers. */
  method SumDay(blocks: seq<BlockHeader>) returns (totalTxs: nat, totalVolume: nat)
    ensures totalTxs == TotalTxs(blocks) && totalVolume == TotalVolume(blocks)
  {
    totalTxs, totalVolume := 0, 0;
    var k := 0;
    while k < |blocks|
      invariant 0 <= k <= |blocks|
      invariant totalTxs == TotalTxs(blocks[..k]) && totalVolume == TotalVolume(blocks[..k])
    {
      assert blocks[..k + 1][..k] == blocks[..k];
      totalTxs := totalTxs + blocks[k].transactionCount;
      totalVolume := totalVolume + Abs(blocks[k].shieldedValueDeltaTotal);
      k := k + 1;
    }
    assert blocks[..k] == blocks;
  }

  /** The totals of a day are the sums of the totals of its batches. */
  lemma {:induction false} TotalsAppend(a: seq<BlockHeader>, b: seq<BlockHeader>)
    ensures TotalTxs(a + b) == TotalTxs(a) + TotalTxs(b)
    ensures TotalVolume(a + b) == TotalVolume(a) + TotalVolume(b)
    decreases |b|
  {
    if b == [] {
      assert a + b == a;
    } else {
      var front := b[..|b| - 1];
      TotalsAppend(a, front);
      assert (a + b)[..|a + b| - 1] == a + front;
    }
  }

  // ---------------------------------------------------------------------------
  // Sampling.

  /** The `k`-th index of the stride `floor(n / 20)`; it stays inside the day. */
  function SampleIndex(n: nat, k: nat): (r: nat)
    requires n > 0 && k < SampleSize
    ensures r < n
    ensures n < SampleSize ==> r == 0
  {
    StrideInRange(n, k);
    k * (n / SampleSize)
  }

  lemma StrideInRange(n: nat, k: nat)
    requires n > 0 && k < SampleSize
    ensures k * (n / SampleSize) < n
  {
    var step := n / SampleSize;
    MulLeftMono(step, k, SampleSize - 1);
    assert SampleSize * step <= n;
    if step > 0 {
      assert step * k <= step * (SampleSize - 1) < SampleSize * step;
    }
  }

  /** The sample: 20 headers at the evenly strided indices. */
  function EvenSample(blocks: seq<BlockHeader>): (r: seq<BlockHeader>)
    requires |blocks| > 0
    ensures |r| == SampleSize
  {
    seq(SampleSize, k requires 0 <= k < SampleSize => blocks[SampleIndex(|blocks|, k)])
  }

  /**
   * With fewer than 20 headers the stride is 0 and the sample is the first
   * header 20 times; otherwise the sampled indices strictly increase, so the
   * sample holds 20 different positions of the day.
   */
  lemma SampleShape(blocks: seq<BlockHeader>)
    requires |blocks| > 0
    ensures |blocks| < SampleSize ==> forall k | 0 <= k < SampleSize :: EvenSample(blocks)[k] == blocks[0]
    ensures |blocks| >= SampleSize ==>
              forall k | 0 <= k < SampleSize - 1 :: SampleIndex(|blocks|, k) < SampleIndex(|blocks|, k + 1)
  {
    if |blocks| >= SampleSize {
      forall k | 0 <= k < SampleSize - 1 ensures SampleIndex(|blocks|, k) < SampleIndex(|blocks|, k + 1) {
        var step := |blocks| / SampleSize;
        assert (k + 1) * step == k * step + step;
      }
    }
  }

  /** The `for (j = 0; j < n; j += step)` loop that fills `sampleBlocks`. */
  method SampleBlocks(blocks: seq<BlockHeader>) returns (sample: seq<BlockHeader>)
    requires |blocks| > 0
    ensures sample == EvenSample(blocks)
  {
    var step := |blocks| / SampleSize;
    sample := [];
    var j := 0;
    while j < |blocks|
      invariant |sample| < SampleSize && j == |sample| * step && j < |blocks|
      invariant sample == EvenSample(blocks)[..|sample|]
      decreases SampleSize - |sample|
    {
      sample := sample + [blocks[j]];
      if |sample| >= SampleSize {
        break;
      }
      StrideInRange(|blocks|, |sample|);
      j := j + step;
    }
  }

  // ---------------------------------------------------------------------------
  // Estimating the shielded share of a sampled block.

  /** How many of `ids` resolve to a transaction that is shielded; unresolved ids count for nothing. */
  function CheckedShielded(ids: seq<string>, txSrc: TxSource): (c: nat)
    ensures c <= |ids|
  {
    if ids == [] then 0
    else
      var last := txSrc(ids[|ids| - 1]);
      CheckedShielded(ids[..|ids| - 1], txSrc) + (if last.Some? && IsShielded(last.value) then 1 else 0)
  }

  /**
   * `Math.round(count * (len / 10))` when the block has more than 10
   * transactions, `count` otherwise. Scaling a count of at most
   * `min(10, len)` never exceeds the block's length.
   */
  function Extrapolate(count: nat, len: nat): (r: nat)
    ensures len <= CheckedPerBlock ==> r == count
    ensures count <= Min(CheckedPerBlock, len) ==> r <= len
    ensures count == 0 ==> r == 0
  {
    if len > CheckedPerBlock then
      ExtrapolateBound(count, len);
      RoundDiv(count * len, CheckedPerBlock)
    else count
  }

  lemma ExtrapolateBound(count: nat, len: nat)
    requires len > CheckedPerBlock
    ensures 0 <= RoundDiv(count * len, CheckedPerBlock)
    ensures count <= CheckedPerBlock ==> RoundDiv(count * len, CheckedPerBlock) <= len
    ensures count == 0 ==> RoundDiv(count * len, CheckedPerBlock) == 0
  {
    if count <= CheckedPerBlock {
      MulLeftMono(len, count, CheckedPerBlock);
      assert count * len <= CheckedPerBlock * len;
    }
  }

  /** The shielded estimate of one sampled block with transaction ids `ids`. */
  function BlockEstimate(ids: seq<string>, txSrc: TxSource): (r: nat)
    ensures r <= |ids|
  {
    Extrapolate(CheckedShielded(ids[..Min(CheckedPerBlock, |ids|)], txSrc), |ids|)
  }

  /** Checks the first 10 ids (`txIds.slice(0, 10)`) and extrapolates. */
  method EstimateBlock(ids: seq<string>, txSrc: TxSource) returns (blockShieldedCount: nat)
    ensures blockShieldedCount == BlockEstimate(ids, txSrc)
  {
    var txsToCheck := ids[..Min(CheckedPerBlock, |ids|)];
    blockShieldedCount := 0;
    var k := 0;
    while k < |txsToCheck|
      invariant 0 <= k <= |txsToCheck|
      invariant blockShieldedCount == CheckedShielded(txsToCheck[..k], txSrc)
    {
      assert txsToCheck[..k + 1][..k] == txsToCheck[..k];
      var tx := txSrc(txsToCheck[k]);
      if tx.Some? && IsShielded(tx.value) {
        blockShieldedCount := blockShieldedCount + 1;
      }
      k := k + 1;
    }
    assert txsToCheck[..k] == txsToCheck;
    if |ids| > CheckedPerBlock {
      blockShieldedCount := Extrapolate(blockShieldedCount, |ids|);
    }
  }

  /** `sampleTotalTxs`: the transaction counts of the sampled blocks whose details were found. */
  function SampledTxs(sample: seq<BlockHeader>, blockSrc: BlockSource): nat
  {
    if sample == [] then 0
    else
      var detail := blockSrc(sample[|sample| - 1].id);
      SampledTxs(sample[..|sample| - 1], blockSrc) + (if detail.Some? then |detail.value.transactions| else 0)
  }

  /** `sampleShieldedTxs`: the sum of the block estimates over the same blocks. */
  function SampledShielded(sample: seq<BlockHeader>, blockSrc: BlockSource, txSrc: TxSource): nat
  {
    if sample == [] then 0
    else
      var detail := blockSrc(sample[|sample| - 1].id);
      SampledShielded(sample[..|sample| - 1], blockSrc, txSrc)
        + (if detail.Some? then BlockEstimate(detail.value.transactions, txSrc) else 0)
  }

  /** The estimated shielded transactions never outnumber the sampled ones, so the ratio lies in [0, 1]. */
  lemma {:induction false} SampledShieldedBounded(sample: seq<BlockHeader>, blockSrc: BlockSource, txSrc: TxSource)
    ensures SampledShielded(sample, blockSrc, txSrc) <= SampledTxs(sample, blockSrc)
  {
    if sample != [] {
      SampledShieldedBounded(sample[..|sample| - 1], blockSrc, txSrc);
    }
  }

  /** The loop over `sampleDetails`, skipping blocks whose details are missing. */
  method SampleTotals(sample: seq<BlockHeader>, blockSrc: BlockSource, txSrc: TxSource)
    returns (sampleTotalTxs: nat, sampleShieldedTxs: nat)
    ensures sampleTotalTxs == SampledTxs(sample, blockSrc)
    ensures sampleShieldedTxs == SampledShielded(sample, blockSrc, txSrc)
    ensures sampleShieldedTxs <= sampleTotalTxs
  {
    sampleTotalTxs, sampleShieldedTxs := 0, 0;
    var k := 0;
    while k < |sample|
      invariant 0 <= k <= |sample|
      invariant sampleTotalTxs == SampledTxs(sample[..k], blockSrc)
      invariant sampleShieldedTxs == SampledShielded(sample[..k], blockSrc, txSrc)
    {
      assert sample[..k + 1][..k] == sample[..k];
      var blockDetail := blockSrc(sample[k].id);
      if blockDetail.None? {
        k := k + 1;
        continue;
      }
      var txIds := blockDetail.value.transactions;
      sampleTotalTxs := sampleTotalTxs + |txIds|;
      var blockShieldedCount := EstimateBlock(txIds, txSrc);
      sampleShieldedTxs := sampleShieldedTxs + blockShieldedCount;
      k := k + 1;
    }
    assert sample[..k] == sample;
    SampledShieldedBounded(sample, blockSrc, txSrc);
  }

  // ---------------------------------------------------------------------------
  // The day's figures.

  /**
   * `Math.round(totalTxs * shieldedRatio)` with the exact ratio
   * `sampled / sampledTotal` (0 when nothing was sampled): never more than the
   * day's total when the ratio is at most 1.
   */
  function EstimatedShielded(totalTxs: nat, sampled: nat, sampledTotal: nat): (r: int)
    ensures sampledTotal == 0 || sampled == 0 ==> r == 0
    ensures sampled <= sampledTotal ==> 0 <= r <= totalTxs
    ensures 0 < sampled == sampledTotal ==> r == totalTxs
  {
    if sampledTotal == 0 then 0
    else
      EstimateBound(totalTxs, sampled, sampledTotal);
      RoundDiv(totalTxs * sampled, sampledTotal)
  }

  lemma EstimateBound(totalTxs: nat, sampled: nat, sampledTotal: nat)
    requires sampledTotal > 0
    ensures sampled == 0 ==> RoundDiv(totalTxs * sampled, sampledTotal) == 0
    ensures sampled <= sampledTotal ==> 0 <= RoundDiv(totalTxs * sampled, sampledTotal) <= totalTxs
    ensures sampled == sampledTotal ==> RoundDiv(totalTxs * sampled, sampledTotal) == totalTxs
  {
    var r := RoundDiv(totalTxs * sampled, sampledTotal);
    if sampled <= sampledTotal {
      MulLeftMono(totalTxs, sampled, sampledTotal);
      if r > totalTxs {
        MulLeftMono(2 * sampledTotal, totalTxs + 1, r);
        assert false;
      }
    }
    if sampled == sampledTotal && r < totalTxs {
      MulLeftMono(2 * sampledTotal, r, totalTxs - 1);
      assert false;
    }
  }

  /** The entry of a day whose headers are `blocks`. */
  function DayOf(blocks: seq<BlockHeader>, blockSrc: BlockSource, txSrc: TxSource): (d: DayStats)
    requires |blocks| > 0
    ensures Plausible(d)
  {
    var sample := EvenSample(blocks);
    var sampled := SampledShielded(sample, blockSrc, txSrc);
    var sampledTotal := SampledTxs(sample, blockSrc);
    SampledShieldedBounded(sample, blockSrc, txSrc);
    DayStats(blocks[0].time, TotalTxs(blocks), EstimatedShielded(TotalTxs(blocks), sampled, sampledTotal),
             TotalVolume(blocks), Percent(sampled, sampledTotal))
  }

  /** Day `i`, or `None` when all its batches came back empty (`continue`). */
  function Day(best: int, i: nat, ranges: RangeSource, blockSrc: BlockSource, txSrc: TxSource): Option<DayStats>
  {
    var blocks := DayBlocks(ranges, DayRange(best, i).0, DayRange(best, i).1);
    if blocks == [] then None else Some(DayOf(blocks, blockSrc, txSrc))
  }

  /** Totals, sample and figures of a day that has headers. */
  method ComputeDay(allDayBlocks: seq<BlockHeader>, blockSrc: BlockSource, txSrc: TxSource) returns (d: DayStats)
    requires |allDayBlocks| > 0
    ensures d == DayOf(allDayBlocks, blockSrc, txSrc)
  {
    var totalTxs, totalVolume := SumDay(allDayBlocks);
    var sampleBlocks := SampleBlocks(allDayBlocks);
    var sampleTotalTxs, sampleShieldedTxs := SampleTotals(sampleBlocks, blockSrc, txSrc);
    var estimated := EstimatedShielded(totalTxs, sampleShieldedTxs, sampleTotalTxs);
    var score := Percent(sampleShieldedTxs, sampleTotalTxs);
    d := DayStats(allDayBlocks[0].time, totalTxs, estimated, totalVolume, score);
  }

  /** The entries pushed for days `0 .. n - 1`, most recent first. */
  function NewestFirst(best: int, n: nat, ranges: RangeSource, blockSrc: BlockSource, txSrc: TxSource): seq<DayStats>
  {
    if n == 0 then []
    else
      var d := Day(best, n - 1, ranges, blockSrc, txSrc);
      NewestFirst(best, n - 1, ranges, blockSrc, txSrc) + (if d.Some? then [d.value] else [])
  }

  lemma NewestFirstStep(best: int, i: nat, ranges: RangeSource, blockSrc: BlockSource, txSrc: TxSource,
                        blocks: seq<BlockHeader>)
    requires blocks == DayBlocks(ranges, DayRange(best, i).0, DayRange(best, i).1)
    ensures NewestFirst(best, i + 1, ranges, blockSrc, txSrc)
            == NewestFirst(best, i, ranges, blockSrc, txSrc) + (if blocks == [] then [] else [DayOf(blocks, blockSrc, txSrc)])
  {
    assert Day(best, i, ranges, blockSrc, txSrc) == if blocks == [] then None else Some(DayOf(blocks, blockSrc, txSrc));
  }

  /** `history.reverse()` */
  function Reverse<T>(s: seq<T>): (r: seq<T>)
    ensures |r| == |s|
    ensures forall k | 0 <= k < |s| :: r[k] == s[|s| - 1 - k]
  {
    if s == [] then [] else Reverse(s[1..]) + [s[0]]
  }

  predicate Plausible(d: DayStats)
  {
    0 <= d.shielded <= d.total && 0 <= d.score <= 100
  }

  /** At most one entry per day, and every entry has shielded <= total and a score in 0..100. */
  lemma {:induction false} NewestFirstBounds(best: int, n: nat, ranges: RangeSource, blockSrc: BlockSource, txSrc: TxSource)
    ensures |NewestFirst(best, n, ranges, blockSrc, txSrc)| <= n
    ensures forall k | 0 <= k < |NewestFirst(best, n, ranges, blockSrc, txSrc)| ::
              Plausible(NewestFirst(best, n, ranges, blockSrc, txSrc)[k])
  {
    if n > 0 {
      NewestFirstBounds(best, n - 1, ranges, blockSrc, txSrc);
      var d := Day(best, n - 1, ranges, blockSrc, txSrc);
    }
  }

  /**
   * The result of `getHistoricalStats(days)`: the days' entries, oldest
   * first; nothing when the network stats (`bestHeight`) are missing.
   */
  function Historical(bestHeight: Option<int>, days: int, ranges: RangeSource, blockSrc: BlockSource, txSrc: TxSource)
    : seq<DayStats>
  {
    if bestHeight.None? then [] else Reverse(NewestFirst(bestHeight.value, Max(days, 0), ranges, blockSrc, txSrc))
  }

  /** At most one entry per requested day, each with shielded <= total and a score in 0..100. */
  lemma HistoricalBounds(bestHeight: Option<int>, days: int, ranges: RangeSource, blockSrc: BlockSource, txSrc: TxSource)
    ensures bestHeight.None? || days <= 0 ==> Historical(bestHeight, days, ranges, blockSrc, txSrc) == []
    ensures |Historical(bestHeight, days, ranges, blockSrc, txSrc)| <= Max(days, 0)
    ensures forall k | 0 <= k < |Historical(bestHeight, days, ranges, blockSrc, txSrc)| ::
              Plausible(Historical(bestHeight, days, ranges, blockSrc, txSrc)[k])
  {
    if bestHeight.Some? {
      NewestFirstBounds(bestHeight.value, Max(days, 0), ranges, blockSrc, txSrc);
    }
  }

  /** The day loop. `bestHeight` is `stats.best_block_height`, `None` when `getNetworkStats` failed. */
  method GetHistoricalStats(bestHeight: Option<int>, days: int, ranges: RangeSource, blockSrc: BlockSource, txSrc: TxSource)
    returns (history: seq<DayStats>)
    ensures history == Historical(bestHeight, days, ranges, blockSrc, txSrc)
  {
    if bestHeight.None? {
      return [];
    }
    var currentHeight := bestHeight.value;
    history := [];
    var i: nat := 0;
    while i < days
      invariant 0 <= i <= Max(days, 0)
      invariant history == NewestFirst(currentHeight, i, ranges, blockSrc, txSrc)
    {
      var dayEndHeight := currentHeight - i * BlocksPerDay;
      var dayStartHeight := dayEndHeight - BlocksPerDay + 1;
      assert (dayStartHeight, dayEndHeight) == DayRange(currentHeight, i);
      var allDayBlocks := FetchDayBlocks(ranges, dayStartHeight, dayEndHeight);
      NewestFirstStep(currentHeight, i, ranges, blockSrc, txSrc, allDayBlocks);
      if |allDayBlocks| == 0 {
        i := i + 1;
        continue;
      }
      var day := ComputeDay(allDayBlocks, blockSrc, txSrc);
      history := history + [day];
      i := i + 1;
    }
    assert i == Max(days, 0);
    assert history == NewestFirst(bestHeight.value, Max(days, 0), ranges, blockSrc, txSrc);
    history := Reverse(history);
  }

  /**
   * The score is computed from the sampled ratio, not from the rounded
   * estimate: one transaction in the day and a 2-in-5 sample give an
   * estimate of 0 shielded transactions but a score of 40.
   */
  lemma ScoreIsNotEstimateOverTotal()
    ensures EstimatedShielded(1, 2, 5) == 0 && Percent(2, 5) == 40
  {
    assert RoundDiv(2, 5) == 0;
    assert RoundDiv(200, 5) == 40;
  }
}
