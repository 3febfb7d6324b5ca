/**
 * The simulated decryption module: the key and transaction-id checks,
 * `decrypt_memo`'s dispatch on the key prefix, the `decrypt_inbox` loop and
 * `getKeyInfo`. The 1.5 s delay is not modelled and `Math.random()` is the
 * parameter `pick`, the memo index it yields.
 */
module ZcashDecrypt {
  import opened Wrappers
  import opened JsString

  const ValidPrefixes: seq<string> := ["uview", "uviewtest", "zviews", "zviewtestsapling"]

  /** `validPrefixes.some(prefix => key.startsWith(prefix))` */
  predicate HasValidPrefix(key: string)
  {
    exists i | 0 <= i < |ValidPrefixes| :: StartsWith(key, ValidPrefixes[i])
  }

  /** `validateViewingKey(key)` */
  predicate ValidateViewingKey(key: string)
  {
    HasValidPrefix(key) && |key| > 20
  }

  /** `validateTxId(txid)`: `/^[a-fA-F0-9]{64}$/` */
  predicate ValidateTxId(txid: string)
  {
    IsHex64(txid)
  }

  const InvalidKeyError := "Invalid viewing key format. Must start with 'uview', 'uviewtest', 'zviews', or 'zviewtestsapling'."
  const InvalidTxError := "Invalid transaction ID format. Must be a 64-character hexadecimal string."
  const UndecryptableError := "Unable to decrypt this transaction with the provided viewing key. "
    + "This transaction may not have been sent to an address controlled by this viewing key."

  const Memos: seq<string> := [
    "Thanks for the ZEC! Invoice #12345 paid.",
    "Payment for consulting services - January 2025",
    "Monthly subscription fee - Premium plan",
    "Confidential payment - Project Alpha",
    "Transfer to savings - 10 ZEC"
  ]
  const DecryptedPrefix := "\U{2713} Decrypted: "
  const TestnetMemo := "\U{2713} Testnet transaction memo: Test payment for development purposes."
  const SaplingMemo := "\U{2713} Legacy Sapling memo: Migration from Sprout pool."

  /** `Math.floor(Math.random() * memos.length)` */
  type MemoPick = i: nat | i < 5

  /**
   * `decrypt_memo(viewing_key, tx_hex)`: `Failure` carries the message of the
   * error it throws. The key is checked first; the transaction argument is
   * refused only when it is both not 64 hex digits and shorter than 64.
   */
  function DecryptMemo(viewingKey: string, txHex: string, pick: MemoPick): Result<string, string>
  {
    if !ValidateViewingKey(viewingKey) then Failure(InvalidKeyError)
    else if !ValidateTxId(txHex) && |txHex| < 64 then Failure(InvalidTxError)
    else if StartsWith(viewingKey, "uview1") then Success(DecryptedPrefix + Memos[pick])
    else if StartsWith(viewingKey, "uviewtest") then Success(TestnetMemo)
    else if StartsWith(viewingKey, "zviews") then Success(SaplingMemo)
    else Failure(UndecryptableError)
  }

  /** Whether `decrypt_memo` returns rather than throws; the random pick plays no part in it. */
  predicate Decryptable(viewingKey: string, txHex: string)
  {
    && ValidateViewingKey(viewingKey)
    && (ValidateTxId(txHex) || |txHex| >= 64)
    && (StartsWith(viewingKey, "uview1") || StartsWith(viewingKey, "uviewtest") || StartsWith(viewingKey, "zviews"))
  }

  /**
   * The order of the checks: an invalid key is reported whatever the
   * transaction, any string of 64 characters or more passes the transaction
   * check, and the call succeeds exactly for the decryptable pairs.
   */
  lemma DecryptMemoCases(viewingKey: string, txHex: string, pick: MemoPick)
    ensures !ValidateViewingKey(viewingKey) ==> DecryptMemo(viewingKey, txHex, pick) == Failure(InvalidKeyError)
    ensures ValidateViewingKey(viewingKey) && |txHex| >= 64 ==> DecryptMemo(viewingKey, txHex, pick) != Failure(InvalidTxError)
    ensures DecryptMemo(viewingKey, txHex, pick).Success? <==> Decryptable(viewingKey, txHex)
    ensures Decryptable(viewingKey, txHex) && StartsWith(viewingKey, "uview1") ==>
              DecryptMemo(viewingKey, txHex, pick).value[..|DecryptedPrefix|] == DecryptedPrefix
  {
    assert UndecryptableError != InvalidTxError by { assert |UndecryptableError| != |InvalidTxError|; }
  }

  /**
   * A Sapling testnet key passes `validateViewingKey` yet every decryption
   * with it throws: it starts with none of the three prefixes `decrypt_memo`
   * knows how to answer.
   */
  lemma SaplingTestnetNeverDecrypts(viewingKey: string, txHex: string, pick: MemoPick)
    requires StartsWith(viewingKey, "zviewtestsapling") && |viewingKey| > 20
    ensures ValidateViewingKey(viewingKey)
    ensures DecryptMemo(viewingKey, txHex, pick).Failure?
  {
    assert StartsWith(viewingKey, ValidPrefixes[3]);
    assert viewingKey[..16] == "zviewtestsapling";
    assert viewingKey[5] == 't';
    assert !StartsWith(viewingKey, "zviews") by { assert viewingKey[..6][5] == 't'; }
    assert !StartsWith(viewingKey, "uview1") by { assert viewingKey[0] == 'z'; }
    assert !StartsWith(viewingKey, "uviewtest") by { assert viewingKey[0] == 'z'; }
  }

  // ---------------------------------------------------------------------------
  // decrypt_inbox

  /**
   * The map `decrypt_inbox` builds from the first `n` ids: each id that
   * decrypts is set to its memo (a repeated id keeps the later memo), the
   * others are skipped. `pick(i)` is the memo index drawn for the `i`-th id.
   */
  function Inbox(viewingKey: string, txIds: seq<string>, pick: nat -> MemoPick, n: nat): map<string, string>
    requires n <= |txIds|
  {
    if n == 0 then map[]
    else
      var results := Inbox(viewingKey, txIds, pick, n - 1);
      var r := DecryptMemo(viewingKey, txIds[n - 1], pick(n - 1));
      if r.Success? then results[txIds[n - 1] := r.value] else results
  }

  /** `decrypt_inbox(viewing_key, tx_ids)`: ids are tried in order and failures are skipped. */
  method DecryptInbox(viewingKey: string, txIds: seq<string>, pick: nat -> MemoPick) returns (results: map<string, string>)
    ensures results == Inbox(viewingKey, txIds, pick, |txIds|)
  {
    results := map[];
    var i := 0;
    while i < |txIds|
      invariant 0 <= i <= |txIds|
      invariant results == Inbox(viewingKey, txIds, pick, i)
    {
      var txid := txIds[i];
      var memo := DecryptMemo(viewingKey, txid, pick(i));
      if memo.Failure? {
        i := i + 1;
        continue;
      }
      results := results[txid := memo.value];
      i := i + 1;
    }
  }

  /**
   * An id is a key of the result exactly when it is one of the ids and
   * decrypts; a failing id does not keep later ones out. Every value is a
   * memo `decrypt_memo` can return for that id.
   */
  lemma {:induction false} InboxKeys(viewingKey: string, txIds: seq<string>, pick: nat -> MemoPick, n: nat)
    requires n <= |txIds|
    ensures forall t :: t in Inbox(viewingKey, txIds, pick, n) <==> t in txIds[..n] && Decryptable(viewingKey, t)
    ensures forall t | t in Inbox(viewingKey, txIds, pick, n) ::
              exists p: MemoPick :: DecryptMemo(viewingKey, t, p) == Success(Inbox(viewingKey, txIds, pick, n)[t])
  {
    if n > 0 {
      InboxKeys(viewingKey, txIds, pick, n - 1);
      assert txIds[..n] == txIds[..n - 1] + [txIds[n - 1]];
      DecryptMemoCases(viewingKey, txIds[n - 1], pick(n - 1));
    }
  }

  // ---------------------------------------------------------------------------
  // getKeyInfo

  datatype KeyInfo = KeyInfo(keyType: string, network: string, valid: bool)

  /** `getKeyInfo(viewing_key)`: the first matching prefix names the key; no length check. */
  function GetKeyInfo(viewingKey: string): KeyInfo
  {
    if StartsWith(viewingKey, "uview1") then KeyInfo("Unified Full Viewing Key", "Mainnet", true)
    else if StartsWith(viewingKey, "uviewtest") then KeyInfo("Unified Full Viewing Key", "Testnet", true)
    else if StartsWith(viewingKey, "zviews") then KeyInfo("Sapling Viewing Key", "Mainnet", true)
    else if StartsWith(viewingKey, "zviewtestsapling") then KeyInfo("Sapling Viewing Key", "Testnet", true)
    else KeyInfo("Unknown", "Unknown", false)
  }

  /** A key `getKeyInfo` calls valid has a prefix `validateViewingKey` accepts. */
  lemma KeyInfoValidHasPrefix(viewingKey: string)
    ensures GetKeyInfo(viewingKey).valid ==> HasValidPrefix(viewingKey)
  {
    if StartsWith(viewingKey, "uview1") {
      assert viewingKey[..5] == viewingKey[..6][..5];
      assert StartsWith(viewingKey, ValidPrefixes[0]);
    } else if StartsWith(viewingKey, "uviewtest") {
      assert StartsWith(viewingKey, ValidPrefixes[1]);
    } else if StartsWith(viewingKey, "zviews") {
      assert StartsWith(viewingKey, ValidPrefixes[2]);
    } else if StartsWith(viewingKey, "zviewtestsapling") {
      assert StartsWith(viewingKey, ValidPrefixes[3]);
    }
  }

  /**
   * The converse fails: "uview" followed by anything but "1" or "test" is a
   * valid viewing key for `validateViewingKey` and an unknown one for
   * `getKeyInfo`.
   */
  lemma PrefixDoesNotImplyKeyInfo()
    ensures var key := "uviewX" + "aaaaaaaaaaaaaaaaaaaa";
      ValidateViewingKey(key) && !GetKeyInfo(key).valid
  {
    var key := "uviewX" + "aaaaaaaaaaaaaaaaaaaa";
    assert StartsWith(key, ValidPrefixes[0]);
    assert key[..6] != "uview1" && key[..9] != "uviewtest";
    assert key[0] != 'z';
  }
}
