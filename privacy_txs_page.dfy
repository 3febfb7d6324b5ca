/**
 * The shielded-transactions page: a deep scan fills the list once, and the
 * list is shown 50 rows at a time with clamped Previous/Next buttons and a
 * "Showing a to b of n" footer.
 */
module PrivacyTxsPage {
  import opened JsString
  import opened TxModel
  import ShieldedScan

  const ItemsPerPage := 50
  const ScanLimit := 500
  const ScanDepth := 500

  /** `Math.ceil(n / itemsPerPage)` */
  function TotalPages(n: nat): (pages: nat)
    ensures pages == 0 <==> n == 0
    ensures n > 0 ==> ItemsPerPage * (pages - 1) < n <= ItemsPerPage * pages
  {
    (n + ItemsPerPage - 1) / ItemsPerPage
  }

  /** `s.slice(start, end)` for non-negative bounds: both are clamped to the length. */
  function Slice<T>(s: seq<T>, start: nat, end: nat): (r: seq<T>)
    ensures start < |s| && start < end ==> r == s[start..Min(end, |s|)]
    ensures start >= |s| || end <= start ==> r == []
  {
    if start >= |s| || end <= start then [] else s[start..Min(end, |s|)]
  }

  /** `transactions.slice((page - 1) * itemsPerPage, page * itemsPerPage)` */
  function PageRows(txs: seq<Transaction>, page: nat): seq<Transaction>
    requires page >= 1
  {
    Slice(txs, (page - 1) * ItemsPerPage, page * ItemsPerPage)
  }

  /**
   * Every page within range shows between 1 and 50 rows, and every
   * transaction appears on exactly the page its position gives: position
   * `i` is row `i % 50` of page `i / 50 + 1`.
   */
  lemma PagesCoverList(txs: seq<Transaction>, page: nat)
    requires 1 <= page <= TotalPages(|txs|)
    ensures 0 < |PageRows(txs, page)| <= ItemsPerPage
    ensures forall i | 0 <= i < |txs| && i / ItemsPerPage + 1 == page ::
              i % ItemsPerPage < |PageRows(txs, page)| && PageRows(txs, page)[i % ItemsPerPage] == txs[i]
  {
  }

  /** The footer numbers: `(page - 1) * 50 + 1`, `min(page * 50, n)` and `n`. */
  function FooterRange(n: nat, page: nat): (int, int, nat)
  {
    ((page - 1) * ItemsPerPage + 1, Min(page * ItemsPerPage, n), n)
  }

  /** The footer counts the rows it sits under: from the first shown position to the last. */
  lemma FooterMatchesRows(txs: seq<Transaction>, page: nat)
    requires 1 <= page <= TotalPages(|txs|)
    ensures var (first, last, total) := FooterRange(|txs|, page);
      1 <= first <= last <= total && last - first + 1 == |PageRows(txs, page)|
  {
  }

  /** The type badge: "Fully Shielded" when both raw shielded lists are non-empty, else "Mixed". */
  function RowLabel(tx: Transaction): string
  {
    if tx.shieldedInputs > 0 && tx.shieldedOutputs > 0 then "Fully Shielded" else "Mixed"
  }

  /** For a scanned (hence shielded) transaction, "Mixed" means exactly one side is shielded. */
  lemma MixedMeansOneSide(tx: Transaction)
    requires IsShielded(tx)
    ensures RowLabel(tx) == "Mixed" <==> (tx.shieldedInputs == 0 || tx.shieldedOutputs == 0)
  {
    assert "Fully Shielded" != "Mixed" by { assert "Fully Shielded"[0] != "Mixed"[0]; }
  }

  /** The page state. */
  class PrivacyTxsView {
    var transactions: seq<Transaction>
    var loading: bool
    var page: nat

    /** The page stays between 1 and the last page, once there is a list. */
    predicate Valid()
      reads this
    {
      1 <= page && (|transactions| > 0 ==> page <= TotalPages(|transactions|))
    }

    /** The footer and its buttons appear when loading is done and the list is not empty. */
    predicate ShowsFooter()
      reads this
    {
      !loading && |transactions| > 0
    }

    constructor ()
      ensures Valid()
      ensures transactions == [] && loading && page == 1
    {
      transactions := [];
      loading := true;
      page := 1;
    }

    /** `fetchAll()`: one deep scan of up to 500 transactions over at most 500 pages. */
    method FetchAll(src: ShieldedScan.Source)
      requires Valid() && page == 1
      modifies this
      ensures Valid() && !loading && page == 1
      ensures |transactions| <= ScanLimit
      ensures ShieldedScan.AllShielded(transactions) && ShieldedScan.DistinctHashes(transactions)
      ensures exists m :: ShieldedScan.StopsAt(src, ScanLimit, ScanDepth, m) &&
                transactions == ShieldedScan.Collected(src, m, ScanLimit)
    {
      var txs, pagesFetched := ShieldedScan.ScanForShieldedTxs(src, ScanLimit, ScanDepth);
      transactions := txs;
      loading := false;
    }

    /** The rows on the current page. */
    function CurrentTransactions(): seq<Transaction>
      reads this
      requires Valid()
    {
      PageRows(transactions, page)
    }

    /** The Previous button: `setPage(p => Math.max(1, p - 1))`; at page 1 it is disabled and would change nothing. */
    method PrevPage()
      requires Valid() && ShowsFooter()
      modifies this
      ensures Valid() && ShowsFooter()
      ensures page == Max(1, old(page) - 1)
      ensures old(page) == 1 ==> page == old(page)
      ensures transactions == old(transactions) && loading == old(loading)
    {
      page := Max(1, page - 1);
    }

    /** The Next button: `setPage(p => Math.min(totalPages, p + 1))`; on the last page it is disabled and would change nothing. */
    method NextPage()
      requires Valid() && ShowsFooter()
      modifies this
      ensures Valid() && ShowsFooter()
      ensures page == Min(TotalPages(|transactions|), old(page) + 1)
      ensures old(page) == TotalPages(|transactions|) ==> page == old(page)
      ensures transactions == old(transactions) && loading == old(loading)
    {
      page := Min(TotalPages(|transactions|), page + 1);
    }
  }

  datatype Click = Prev | Next

  /**
   * Any sequence of clicks keeps the page in range: from a page in
   * `[1, totalPages]`, the Previous and Next buttons only move within it.
   */
  method ClickThrough(view: PrivacyTxsView, clicks: seq<Click>)
    requires view.Valid() && view.ShowsFooter()
    modifies view
    ensures view.Valid() && view.ShowsFooter()
    ensures 1 <= view.page <= TotalPages(|view.transactions|)
    ensures view.transactions == old(view.transactions)
  {
    var k := 0;
    while k < |clicks|
      invariant 0 <= k <= |clicks|
      invariant view.Valid() && view.ShowsFooter()
      invariant view.transactions == old(view.transactions)
    {
      if clicks[k] == Prev {
        view.PrevPage();
      } else {
        view.NextPage();
      }
      k := k + 1;
    }
  }
}
