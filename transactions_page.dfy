/**
 * The all-transactions page: the page number selects a window of 50
 * transactions by offset, each row is classified and shows its input and
 * output totals, and the footer shows the window and the page links.
 * The page number is the number `parseInt` yields; a non-numeric page
 * (NaN) is not modelled.
 */
module TransactionsPage {
  import opened Wrappers
  import opened TxModel
  import RecentTxs

  const TxsPerPage := 50

  /** `(currentPage - 1) * TXS_PER_PAGE` */
  function Offset(currentPage: int): int
  {
    (currentPage - 1) * TxsPerPage
  }

  /** The `getRecentTxs(limit, offset)` request the page makes. */
  datatype Request = Request(limit: nat, offset: int)

  function PageRequest(currentPage: int): Request
  {
    Request(TxsPerPage, Offset(currentPage))
  }

  /** The requests of consecutive pages tile the list: page 1 starts at 0 and each page starts where the last one ended. */
  lemma RequestsTile(currentPage: int)
    ensures PageRequest(1).offset == 0
    ensures PageRequest(currentPage).limit == TxsPerPage
    ensures PageRequest(currentPage + 1).offset == PageRequest(currentPage).offset + PageRequest(currentPage).limit
  {
  }

  /** The badge text: the shared classification, with fully shielded rows labelled "Shielded". */
  function RowLabel(tx: Transaction): string
  {
    match RecentTxs.Classify(tx)
    case FullyShielded => "Shielded"
    case Mixed => "Mixed"
    case Public => "Public"
  }

  /** Each row carries exactly one of the three labels, and the label names the class. */
  lemma RowLabelCases(tx: Transaction)
    ensures RowLabel(tx) == "Shielded" <==> RecentTxs.Classify(tx) == RecentTxs.FullyShielded
    ensures RowLabel(tx) == "Mixed" <==> RecentTxs.Classify(tx) == RecentTxs.Mixed
    ensures RowLabel(tx) == "Public" <==> !RecentTxs.HasApproxShielded(tx)
  {
    assert "Shielded" != "Mixed" && "Shielded" != "Public" && "Mixed" != "Public" by {
      assert "Shielded"[0] != "Mixed"[0] && "Shielded"[0] != "Public"[0] && "Mixed"[0] != "Public"[0];
    }
  }

  /** The "Inputs/Outputs" cell: transparent plus approximate counts on each side. */
  function ShownIO(tx: Transaction): (int, int)
  {
    (tx.inputCount + tx.inputCountApproximate, tx.outputCount + tx.outputCountApproximate)
  }

  /** The cell of a public row with non-negative counts is just its transparent counts. */
  lemma PublicRowShowsTransparentCounts(tx: Transaction)
    requires tx.inputCountApproximate >= 0 && tx.outputCountApproximate >= 0
    requires RowLabel(tx) == "Public"
    ensures ShownIO(tx) == (tx.inputCount, tx.outputCount)
  {
    RowLabelCases(tx);
  }

  /** "Showing transactions a - b": the numbers follow from the page alone, not from how many rows came back. */
  function ShowingRange(currentPage: int): (int, int)
  {
    ((currentPage - 1) * TxsPerPage + 1, currentPage * TxsPerPage)
  }

  /**
   * The range numbers the requested window from one: it starts one past the
   * offset, spans the 50 requested rows, and consecutive pages' ranges adjoin.
   */
  lemma ShowingMatchesRequest(currentPage: int)
    ensures ShowingRange(currentPage).0 == PageRequest(currentPage).offset + 1
    ensures ShowingRange(currentPage).1 - ShowingRange(currentPage).0 + 1 == PageRequest(currentPage).limit
    ensures ShowingRange(currentPage + 1).0 == ShowingRange(currentPage).1 + 1
  {
  }

  /** The Previous link: present only after the first page. */
  function PrevLink(currentPage: int): Option<int>
  {
    if currentPage > 1 then Some(currentPage - 1) else None
  }

  /** The Next link: always present. */
  function NextLink(currentPage: int): int
  {
    currentPage + 1
  }

  /** Previous and Next undo each other wherever the Previous link exists. */
  lemma LinksInverse(currentPage: int)
    ensures PrevLink(currentPage).Some? <==> currentPage > 1
    ensures currentPage >= 1 ==> PrevLink(NextLink(currentPage)) == Some(currentPage)
    ensures PrevLink(currentPage).Some? ==> NextLink(PrevLink(currentPage).value) == currentPage
  {
  }
}
