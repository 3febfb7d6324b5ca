/**
 * `scanForShieldedTxs`: pages backwards through the most recent transactions,
 * 100 per page and 5 pages per round, keeping the shielded ones without
 * duplicate hashes, until `limit` are found, `maxDepth` pages have been
 * requested, or a whole round comes back empty.
 *
 * The remote listing `getRecentTxs(100, offset)` is a total function from
 * offset to page; a failed request is the empty page it returns. The pages of a
 * round are fetched in parallel but consumed in request order, so the rounds
 * are modelled as sequential requests.
 */
module ShieldedScan {
  import opened JsString
  import opened TxModel

  const BatchSize: nat := 100
  const Concurrency: nat := 5

  /** `getRecentTxs(BatchSize, offset)` */
  type Source = nat -> seq<Transaction>

  /** `shieldedTxs.some(t => t.hash === h)` */
  predicate HasHash(acc: seq<Transaction>, h: string)
  {
    exists i | 0 <= i < |acc| :: acc[i].hash == h
  }

  predicate DistinctHashes(txs: seq<Transaction>)
  {
    forall i, j | 0 <= i < j < |txs| :: txs[i].hash != txs[j].hash
  }

  predicate AllShielded(txs: seq<Transaction>)
  {
    forall i | 0 <= i < |txs| :: IsShielded(txs[i])
  }

  /** What the scan does with one transaction of a page. */
  function Push(acc: seq<Transaction>, tx: Transaction): seq<Transaction>
  {
    if IsShielded(tx) && !HasHash(acc, tx.hash) then acc + [tx] else acc
  }

  /** The inner loop over one page: stops as soon as `limit` transactions are held. */
  function Absorb(acc: seq<Transaction>, txs: seq<Transaction>, limit: int): seq<Transaction>
    decreases |txs|
  {
    if |acc| >= limit || txs == [] then acc
    else Absorb(Push(acc, txs[0]), txs[1..], limit)
  }

  /** The loop over the pages of a round, in request order. */
  function AbsorbAll(acc: seq<Transaction>, pages: seq<seq<Transaction>>, limit: int): seq<Transaction>
    decreases |pages|
  {
    if |acc| >= limit || pages == [] then acc
    else AbsorbAll(Absorb(acc, pages[0], limit), pages[1..], limit)
  }

  // ---------------------------------------------------------------------------
  // Reference definition: the first `limit` distinct shielded transactions.

  /** `acc` followed by the shielded transactions of `txs` whose hash was not seen before (no limit). */
  function UniqueFrom(acc: seq<Transaction>, txs: seq<Transaction>): seq<Transaction>
    decreases |txs|
  {
    if txs == [] then acc else UniqueFrom(Push(acc, txs[0]), txs[1..])
  }

  function Take(s: seq<Transaction>, n: int): (r: seq<Transaction>)
    ensures |r| == if n <= 0 then 0 else Min(n, |s|)
    ensures r == s[..|r|]
  {
    if n <= 0 then [] else if |s| <= n then s else s[..n]
  }

  function Flatten(pages: seq<seq<Transaction>>): seq<Transaction>
  {
    if pages == [] then [] else pages[0] + Flatten(pages[1..])
  }

  /** The pages at offsets lo*100, (lo+1)*100, ..., (hi-1)*100. */
  function PagesBetween(src: Source, lo: nat, hi: nat): (ps: seq<seq<Transaction>>)
    requires lo <= hi
    ensures |ps| == hi - lo
    ensures forall k | 0 <= k < hi - lo :: ps[k] == src((lo + k) * BatchSize)
  {
    seq(hi - lo, k requires 0 <= k < hi - lo => src((lo + k) * BatchSize))
  }

  /** `results.every(r => !r || r.length === 0)` */
  predicate AllEmpty(pages: seq<seq<Transaction>>)
  {
    forall r | 0 <= r < |pages| :: |pages[r]| == 0
  }

  /** The number of pages `maxDepth` allows. */
  function MaxPages(maxDepth: int): nat
  {
    if maxDepth > 0 then maxDepth else 0
  }

  /** The result of a scan that has requested the first `m` pages. */
  ghost function Collected(src: Source, m: nat, limit: int): seq<Transaction>
  {
    Take(UniqueFrom([], Flatten(PagesBetween(src, 0, m))), limit)
  }

  /** Every page of round `k` (pages 5(k-1) .. 5k-1) is empty. */
  ghost predicate RoundEmpty(src: Source, k: nat)
    requires k >= 1
  {
    forall j | Concurrency * (k - 1) <= j < Concurrency * k :: src(j * BatchSize) == []
  }

  /**
   * The scan stops after requesting exactly the first `m` pages: whole rounds
   * only (or the last, cut short by `maxDepth`), none of the earlier rounds was
   * all empty or reached `limit`, and the last one ran out of pages, reached
   * `limit` or was all empty.
   */
  ghost predicate StopsAt(src: Source, limit: int, maxDepth: int, m: nat)
  {
    && m <= MaxPages(maxDepth)
    && (m % Concurrency == 0 || m == MaxPages(maxDepth))
    && (limit <= 0 ==> m == 0)
    && NoEarlierStop(src, limit, m)
    && (m == MaxPages(maxDepth) || |Collected(src, m, limit)| >= limit ||
        (m >= Concurrency && RoundEmpty(src, m / Concurrency)))
  }

  // ---------------------------------------------------------------------------
  // The scan.

  /** One round of requests: the `for (i < CONCURRENCY)` loop building `promises`. */
  method FetchRound(src: Source, offset: nat, maxDepth: int) returns (pages: seq<seq<Transaction>>)
    requires offset % BatchSize == 0 && offset < maxDepth * BatchSize
    ensures offset / BatchSize < MaxPages(maxDepth)
    ensures pages == PagesBetween(src, offset / BatchSize, Min(offset / BatchSize + Concurrency, MaxPages(maxDepth)))
  {
    var lo := offset / BatchSize;
    var hi := Min(lo + Concurrency, MaxPages(maxDepth));
    pages := [];
    var i := 0;
    while i < Concurrency
      invariant 0 <= i <= Concurrency && lo + i <= hi
      invariant pages == PagesBetween(src, lo, lo + i)
    {
      var currentOffset := offset + i * BatchSize;
      if currentOffset >= maxDepth * BatchSize {
        break;
      }
      pages := pages + [src(currentOffset)];
      i := i + 1;
    }
  }

  /** The loops over the results of a round and the transactions of each page. */
  method ProcessRound(acc0: seq<Transaction>, results: seq<seq<Transaction>>, limit: int)
    returns (acc: seq<Transaction>)
    requires |acc0| < limit
    ensures acc == AbsorbAll(acc0, results, limit)
  {
    acc := acc0;
    var p := 0;
    while p < |results|
      invariant 0 <= p <= |results|
      invariant |acc| < limit
      invariant AbsorbAll(acc, results[p..], limit) == AbsorbAll(acc0, results, limit)
    {
      var txs := results[p];
      if |txs| == 0 {
        p := p + 1;
        continue;
      }
      ghost var start := acc;
      var j := 0;
      while j < |txs|
        invariant 0 <= j <= |txs|
        invariant |acc| < limit
        invariant Absorb(acc, txs[j..], limit) == Absorb(start, txs, limit)
      {
        var tx := txs[j];
        if IsShielded(tx) {
          if !HasHash(acc, tx.hash) {
            acc := acc + [tx];
          }
          if |acc| >= limit {
            break;
          }
        }
        j := j + 1;
      }
      assert acc == Absorb(start, txs, limit);
      if |acc| >= limit {
        break;
      }
      p := p + 1;
    }
  }

  /** None of the rounds completed before page `m` was all empty or reached `limit`. */
  ghost predicate NoEarlierStop(src: Source, limit: int, m: nat)
  {
    && (forall k | 1 <= k && Concurrency * k < m ::
          !RoundEmpty(src, k) && |Collected(src, Concurrency * k, limit)| < limit)
  }

  /** The loop invariant of the scan after the rounds that precede `offset`. */
  ghost predicate Scanned(src: Source, limit: int, maxDepth: int, offset: nat, m: nat, acc: seq<Transaction>)
  {
    && m <= MaxPages(maxDepth)
    && (m < MaxPages(maxDepth) ==> offset == BatchSize * m && m % Concurrency == 0)
    && (m == MaxPages(maxDepth) ==> offset >= maxDepth * BatchSize)
    && acc == Collected(src, m, limit)
    && NoEarlierStop(src, limit, m)
    && (Concurrency <= m < MaxPages(maxDepth) ==> !RoundEmpty(src, m / Concurrency))
    && (limit <= 0 ==> m == 0)
  }

  method ScanForShieldedTxs(src: Source, limit: int, maxDepth: int)
    returns (shieldedTxs: seq<Transaction>, ghost pagesFetched: nat)
    ensures limit <= 0 ==> shieldedTxs == [] && pagesFetched == 0
    ensures |shieldedTxs| <= Max(limit, 0)
    ensures AllShielded(shieldedTxs) && DistinctHashes(shieldedTxs)
    ensures shieldedTxs == Collected(src, pagesFetched, limit)
    ensures StopsAt(src, limit, maxDepth, pagesFetched)
  {
    shieldedTxs := [];
    pagesFetched := 0;
    var offset: nat := 0;
    ghost var emptyRound := false;
    while |shieldedTxs| < limit && offset < maxDepth * BatchSize
      invariant Scanned(src, limit, maxDepth, offset, pagesFetched, shieldedTxs)
      decreases maxDepth * BatchSize - offset
    {
      ScannedOffset(src, limit, maxDepth, offset, pagesFetched, shieldedTxs);
      var results := FetchRound(src, offset, maxDepth);
      ghost var m' := Min(pagesFetched + Concurrency, MaxPages(maxDepth));
      var next := ProcessRound(shieldedTxs, results, limit);
      RoundStep(src, pagesFetched, m', limit);
      if AllEmpty(results) {
        EmptyRoundStops(src, limit, maxDepth, offset, pagesFetched, shieldedTxs, results);
        shieldedTxs, pagesFetched := next, m';
        emptyRound := true;
        break;
      }
      NextRound(src, limit, maxDepth, offset, pagesFetched, shieldedTxs, results);
      shieldedTxs, pagesFetched := next, m';
      offset := offset + BatchSize * Concurrency;
    }
    if !emptyRound {
      ExhaustedStops(src, limit, maxDepth, offset, pagesFetched, shieldedTxs);
    }
    CollectedProperties(src, pagesFetched, limit);
  }

  /** Inside the loop the offset is the first page not yet requested. */
  lemma ScannedOffset(src: Source, limit: int, maxDepth: int, offset: nat, m: nat, acc: seq<Transaction>)
    requires Scanned(src, limit, maxDepth, offset, m, acc)
    requires offset < maxDepth * BatchSize
    ensures m < MaxPages(maxDepth) && offset % BatchSize == 0 && offset / BatchSize == m
  {
  }

  lemma NextRound(src: Source, limit: int, maxDepth: int, offset: nat, m: nat, acc: seq<Transaction>,
                  results: seq<seq<Transaction>>)
    requires Scanned(src, limit, maxDepth, offset, m, acc)
    requires |acc| < limit && offset < maxDepth * BatchSize
    requires offset / BatchSize < MaxPages(maxDepth)
    requires results == PagesBetween(src, m, Min(m + Concurrency, MaxPages(maxDepth)))
    requires !AllEmpty(results)
    ensures Scanned(src, limit, maxDepth, offset + BatchSize * Concurrency,
                    Min(m + Concurrency, MaxPages(maxDepth)), AbsorbAll(acc, results, limit))
  {
    var m' := Min(m + Concurrency, MaxPages(maxDepth));
    RoundStep(src, m, m', limit);
    NoEarlierStopStep(src, limit, maxDepth, m, m');
    NonEmptyRound(src, m, m', maxDepth, results);
  }

  lemma EmptyRoundStops(src: Source, limit: int, maxDepth: int, offset: nat, m: nat, acc: seq<Transaction>,
                        results: seq<seq<Transaction>>)
    requires Scanned(src, limit, maxDepth, offset, m, acc)
    requires |acc| < limit && offset < maxDepth * BatchSize
    requires offset / BatchSize < MaxPages(maxDepth)
    requires results == PagesBetween(src, m, Min(m + Concurrency, MaxPages(maxDepth)))
    requires AllEmpty(results)
    ensures StopsAt(src, limit, maxDepth, Min(m + Concurrency, MaxPages(maxDepth)))
  {
    var m' := Min(m + Concurrency, MaxPages(maxDepth));
    NoEarlierStopStep(src, limit, maxDepth, m, m');
    EmptyRound(src, m, m', maxDepth, results);
  }

  lemma ExhaustedStops(src: Source, limit: int, maxDepth: int, offset: nat, m: nat, acc: seq<Transaction>)
    requires Scanned(src, limit, maxDepth, offset, m, acc)
    requires |acc| >= limit || offset >= maxDepth * BatchSize
    ensures StopsAt(src, limit, maxDepth, m)
  {
  }

  lemma NoEarlierStopStep(src: Source, limit: int, maxDepth: int, m: nat, m': nat)
    requires NoEarlierStop(src, limit, m)
    requires m < MaxPages(maxDepth) && m % Concurrency == 0
    requires m' == Min(m + Concurrency, MaxPages(maxDepth))
    requires m >= Concurrency ==> !RoundEmpty(src, m / Concurrency)
    requires |Collected(src, m, limit)| < limit
    ensures NoEarlierStop(src, limit, m')
  {
    forall k | 1 <= k && Concurrency * k < m'
      ensures !RoundEmpty(src, k) && |Collected(src, Concurrency * k, limit)| < limit
    {
      if Concurrency * k >= m {
        assert Concurrency * k == m;
        assert k == m / Concurrency;
      }
    }
  }

  lemma EmptyRound(src: Source, m: nat, m': nat, maxDepth: int, results: seq<seq<Transaction>>)
    requires m <= m' && results == PagesBetween(src, m, m')
    requires m' < MaxPages(maxDepth) ==> m' == m + Concurrency && m % Concurrency == 0
    requires AllEmpty(results)
    ensures m' < MaxPages(maxDepth) ==> m' >= Concurrency && RoundEmpty(src, m' / Concurrency)
  {
    if m' < MaxPages(maxDepth) {
      forall j | Concurrency * (m' / Concurrency - 1) <= j < Concurrency * (m' / Concurrency)
        ensures src(j * BatchSize) == []
      {
        assert results[j - m] == src(j * BatchSize);
      }
    }
  }

  lemma NonEmptyRound(src: Source, m: nat, m': nat, maxDepth: int, results: seq<seq<Transaction>>)
    requires m <= m' && results == PagesBetween(src, m, m')
    requires m' < MaxPages(maxDepth) ==> m' == m + Concurrency && m % Concurrency == 0
    requires !AllEmpty(results)
    ensures m' >= Concurrency && m' < MaxPages(maxDepth) ==> !RoundEmpty(src, m' / Concurrency)
  {
    var r :| 0 <= r < |results| && |results[r]| != 0;
    assert results[r] == src((m + r) * BatchSize);
  }

  // ---------------------------------------------------------------------------
  // Lemmas.

  /** A round maps the collection after `m` pages to the collection after `m'` pages. */
  lemma RoundStep(src: Source, m: nat, m': nat, limit: int)
    requires m <= m'
    requires |Collected(src, m, limit)| < limit
    ensures AbsorbAll(Collected(src, m, limit), PagesBetween(src, m, m'), limit) == Collected(src, m', limit)
  {
    var before := PagesBetween(src, 0, m);
    var round := PagesBetween(src, m, m');
    assert PagesBetween(src, 0, m') == before + round;
    var u := UniqueFrom([], Flatten(before));
    AbsorbAllIsAbsorbFlatten(Take(u, limit), round, limit);
    AbsorbTake(u, Flatten(round), limit);
    UniqueFromAppend([], Flatten(before), Flatten(round));
    FlattenAppend(before, round);
  }

  lemma {:induction false} FlattenAppend(a: seq<seq<Transaction>>, b: seq<seq<Transaction>>)
    ensures Flatten(a + b) == Flatten(a) + Flatten(b)
  {
    if a == [] {
      assert a + b == b;
    } else {
      assert (a + b)[1..] == a[1..] + b;
      FlattenAppend(a[1..], b);
    }
  }

  lemma {:induction false} UniqueFromAppend(acc: seq<Transaction>, a: seq<Transaction>, b: seq<Transaction>)
    ensures UniqueFrom(acc, a + b) == UniqueFrom(UniqueFrom(acc, a), b)
    decreases |a|
  {
    if a == [] {
      assert a + b == b;
    } else {
      assert (a + b)[1..] == a[1..] + b;
      UniqueFromAppend(Push(acc, a[0]), a[1..], b);
    }
  }

  lemma {:induction false} UniqueFromExtends(acc: seq<Transaction>, txs: seq<Transaction>)
    ensures |acc| <= |UniqueFrom(acc, txs)| && UniqueFrom(acc, txs)[..|acc|] == acc
    decreases |txs|
  {
    if txs != [] {
      UniqueFromExtends(Push(acc, txs[0]), txs[1..]);
    }
  }

  lemma {:induction false} AbsorbAppend(acc: seq<Transaction>, a: seq<Transaction>, b: seq<Transaction>, limit: int)
    ensures Absorb(acc, a + b, limit) == Absorb(Absorb(acc, a, limit), b, limit)
    decreases |a|
  {
    if |acc| >= limit {
    } else if a == [] {
      assert a + b == b;
    } else {
      assert (a + b)[1..] == a[1..] + b;
      AbsorbAppend(Push(acc, a[0]), a[1..], b, limit);
    }
  }

  lemma {:induction false} AbsorbFull(acc: seq<Transaction>, txs: seq<Transaction>, limit: int)
    requires |acc| >= limit
    ensures Absorb(acc, txs, limit) == acc
  {
  }

  lemma {:induction false} AbsorbAllIsAbsorbFlatten(acc: seq<Transaction>, pages: seq<seq<Transaction>>, limit: int)
    ensures AbsorbAll(acc, pages, limit) == Absorb(acc, Flatten(pages), limit)
    decreases |pages|
  {
    if |acc| >= limit {
      AbsorbFull(acc, Flatten(pages), limit);
    } else if pages != [] {
      AbsorbAppend(acc, pages[0], Flatten(pages[1..]), limit);
      AbsorbAllIsAbsorbFlatten(Absorb(acc, pages[0], limit), pages[1..], limit);
    }
  }

  /** The page-by-page loop with its early exit computes the reference definition. */
  lemma {:induction false} AbsorbTake(u: seq<Transaction>, txs: seq<Transaction>, limit: int)
    ensures Absorb(Take(u, limit), txs, limit) == Take(UniqueFrom(u, txs), limit)
    decreases |txs|
  {
    UniqueFromExtends(u, txs);
    if |Take(u, limit)| >= limit {
      AbsorbFull(Take(u, limit), txs, limit);
    } else if txs != [] {
      assert Take(u, limit) == u;
      AbsorbTake(Push(u, txs[0]), txs[1..], limit);
    }
  }

  lemma {:induction false} UniqueFromKeeps(acc: seq<Transaction>, txs: seq<Transaction>)
    requires AllShielded(acc) && DistinctHashes(acc)
    ensures AllShielded(UniqueFrom(acc, txs)) && DistinctHashes(UniqueFrom(acc, txs))
    ensures forall t | t in UniqueFrom(acc, txs) :: t in acc || t in txs
    decreases |txs|
  {
    if txs != [] {
      var next := Push(acc, txs[0]);
      if next != acc {
        assert forall i | 0 <= i < |acc| :: acc[i].hash != txs[0].hash;
      }
      UniqueFromKeeps(next, txs[1..]);
    }
  }

  /** What every scan result satisfies, whatever the source returns. */
  lemma CollectedProperties(src: Source, m: nat, limit: int)
    ensures limit <= 0 ==> Collected(src, m, limit) == []
    ensures |Collected(src, m, limit)| <= Max(limit, 0)
    ensures AllShielded(Collected(src, m, limit)) && DistinctHashes(Collected(src, m, limit))
    ensures forall t | t in Collected(src, m, limit) :: t in Flatten(PagesBetween(src, 0, m))
  {
    var all := Flatten(PagesBetween(src, 0, m));
    UniqueFromKeeps([], all);
    var u := UniqueFrom([], all);
    var r := Collected(src, m, limit);
    forall t | t in r ensures t in all {
      var i :| 0 <= i < |r| && r[i] == t;
      assert u[i] == t;
    }
  }

  /** When the requested pages hold at least `limit` distinct shielded transactions, exactly `limit` are returned. */
  lemma CollectedExact(src: Source, m: nat, limit: int)
    requires limit > 0 && |UniqueFrom([], Flatten(PagesBetween(src, 0, m)))| >= limit
    ensures |Collected(src, m, limit)| == limit
  {
  }

  /** Against a source that never returns anything, a positive limit makes the scan request exactly one round. */
  lemma EmptySourceOneRound(src: Source, limit: int, maxDepth: int, m: nat)
    requires forall offset: nat :: src(offset) == []
    requires limit > 0 && StopsAt(src, limit, maxDepth, m)
    ensures m == Min(Concurrency, MaxPages(maxDepth))
    ensures Collected(src, m, limit) == []
  {
    EmptyPagesCollectNothing(src, m, limit);
    assert RoundEmpty(src, 1);
  }

  lemma EmptyPagesCollectNothing(src: Source, m: nat, limit: int)
    requires forall offset: nat :: src(offset) == []
    ensures Collected(src, m, limit) == []
  {
    var ps := PagesBetween(src, 0, m);
    EmptyFlatten(ps);
  }

  lemma {:induction false} EmptyFlatten(ps: seq<seq<Transaction>>)
    requires forall k | 0 <= k < |ps| :: ps[k] == []
    ensures Flatten(ps) == []
  {
    if ps != [] {
      EmptyFlatten(ps[1..]);
    }
  }

  /** The stop characterisation determines how many pages are requested. */
  lemma StopsAtUnique(src: Source, limit: int, maxDepth: int, m1: nat, m2: nat)
    requires StopsAt(src, limit, maxDepth, m1) && StopsAt(src, limit, maxDepth, m2)
    ensures m1 == m2
  {
    StopsNotBefore(src, limit, maxDepth, m1, m2);
    StopsNotBefore(src, limit, maxDepth, m2, m1);
  }

  lemma StopsNotBefore(src: Source, limit: int, maxDepth: int, a: nat, b: nat)
    requires StopsAt(src, limit, maxDepth, a) && StopsAt(src, limit, maxDepth, b)
    ensures b <= a
  {
    var k := a / Concurrency;
    if 1 <= k {
      NoEarlierStopAt(src, limit, b, k);
    }
  }

  lemma NoEarlierStopAt(src: Source, limit: int, m: nat, k: nat)
    requires NoEarlierStop(src, limit, m) && 1 <= k
    ensures Concurrency * k < m ==> !RoundEmpty(src, k) && |Collected(src, Concurrency * k, limit)| < limit
  {
  }
}
