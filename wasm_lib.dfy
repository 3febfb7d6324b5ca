/**
 * The Rust WebAssembly entry points: `decrypt_memo`'s ordered input checks,
 * `error_result`, `parse_transaction_structure` and `scan_for_transactions`.
 *
 * A Rust `&str` is its UTF-8 bytes, so lengths, prefixes and slices are byte
 * operations; slicing at a byte that is not a character boundary panics.
 * The JSON text and the `format!` layout are left out: a result is the
 * record the JSON serialises, and the memo is the record of the values the
 * template interpolates. Hashing (`perform_crypto_demo`) is left out.
 */
module WasmLib {
  import opened Wrappers

  type Byte = x: int | 0 <= x < 256

  /** The bytes of an ASCII literal. */
  function Ascii(s: string): seq<Byte>
    requires forall i | 0 <= i < |s| :: s[i] as int < 128
  {
    seq(|s|, i requires 0 <= i < |s| => s[i] as int)
  }

  predicate StartsWith(s: seq<Byte>, prefix: seq<Byte>)
  {
    |prefix| <= |s| && s[..|prefix|] == prefix
  }

  /** `str::is_char_boundary(i)`: the ends, or a byte that is not a UTF-8 continuation byte. */
  predicate IsCharBoundary(s: seq<Byte>, i: nat)
  {
    i == 0 || i == |s| || (i < |s| && !(0x80 <= s[i] < 0xC0))
  }

  /** `&s[..n]`: `None` is the panic when `n` is past the end or inside a character. */
  function SliceTo(s: seq<Byte>, n: nat): (r: Option<seq<Byte>>)
    ensures r.Some? <==> n <= |s| && IsCharBoundary(s, n)
    ensures r.Some? ==> r.value == s[..n] && |r.value| == n
  {
    if n <= |s| && IsCharBoundary(s, n) then Some(s[..n]) else None
  }

  // ---------------------------------------------------------------------------
  // hex::decode

  /** The errors `hex::decode` reports. */
  datatype FromHexError = OddLength | InvalidHexCharacter(c: Byte, index: nat)

  predicate IsHexDigit(c: Byte)
  {
    48 <= c <= 57 || 97 <= c <= 102 || 65 <= c <= 70
  }

  /** The digit value of `0-9`, `a-f` and `A-F`. */
  function DigitValue(c: Byte): (v: nat)
    requires IsHexDigit(c)
    ensures v < 16
  {
    if 48 <= c <= 57 then c - 48
    else if 97 <= c <= 102 then c - 97 + 10
    else c - 65 + 10
  }

  function PairValue(hi: Byte, lo: Byte): Byte
    requires IsHexDigit(hi) && IsHexDigit(lo)
  {
    16 * DigitValue(hi) + DigitValue(lo)
  }

  predicate AllHexDigits(s: seq<Byte>)
  {
    forall j | 0 <= j < |s| :: IsHexDigit(s[j])
  }

  /**
   * Decoding an even-length digit string whose first byte sits at `offset`
   * of the whole input: pair by pair, high digit first; the first bad digit
   * is reported with its position in the whole input.
   */
  function DecodePairs(hex: seq<Byte>, offset: nat): (r: Result<seq<Byte>, FromHexError>)
    requires |hex| % 2 == 0
    ensures r.Success? <==> AllHexDigits(hex)
    ensures r.Success? ==> |r.value| == |hex| / 2
    ensures r.Failure? ==>
      && r.error.InvalidHexCharacter?
      && offset <= r.error.index < offset + |hex|
      && r.error.c == hex[r.error.index - offset]
      && !IsHexDigit(r.error.c)
      && AllHexDigits(hex[..r.error.index - offset])
    decreases |hex|
  {
    if |hex| == 0 then Success([])
    else if !IsHexDigit(hex[0]) then Failure(InvalidHexCharacter(hex[0], offset))
    else if !IsHexDigit(hex[1]) then Failure(InvalidHexCharacter(hex[1], offset + 1))
    else
      var rest := DecodePairs(hex[2..], offset + 2);
      if rest.Failure? then
        assert hex[..rest.error.index - offset] == hex[..2] + hex[2..][..rest.error.index - offset - 2];
        rest
      else
        assert forall j | 2 <= j < |hex| :: hex[j] == hex[2..][j - 2];
        Success([PairValue(hex[0], hex[1])] + rest.value)
  }

  /** `hex::decode(tx_hex)`: odd lengths are refused before any digit is looked at. */
  function HexDecode(hex: seq<Byte>): (r: Result<seq<Byte>, FromHexError>)
    ensures r.Success? <==> |hex| % 2 == 0 && AllHexDigits(hex)
    ensures r.Success? ==> |r.value| == |hex| / 2
    ensures |hex| % 2 != 0 ==> r == Failure(OddLength)
  {
    if |hex| % 2 != 0 then Failure(OddLength) else DecodePairs(hex, 0)
  }

  /** A lower-case hex digit of a value below 16. */
  function LowerDigit(d: nat): (c: Byte)
    requires d < 16
    ensures IsHexDigit(c) && DigitValue(c) == d
  {
    if d < 10 then 48 + d else 87 + d
  }

  /** `hex::encode`: two lower-case digits per byte, high digit first. */
  function HexEncode(bytes: seq<Byte>): (hex: seq<Byte>)
    ensures |hex| == 2 * |bytes|
  {
    if |bytes| == 0 then []
    else [LowerDigit(bytes[0] / 16), LowerDigit(bytes[0] % 16)] + HexEncode(bytes[1..])
  }

  /** Decoding what `hex::encode` wrote gives back the bytes. */
  lemma {:induction false} DecodeEncoded(bytes: seq<Byte>, offset: nat)
    ensures DecodePairs(HexEncode(bytes), offset) == Success(bytes)
  {
    if |bytes| > 0 {
      var hex := HexEncode(bytes);
      DecodeEncoded(bytes[1..], offset + 2);
      assert hex[2..] == HexEncode(bytes[1..]);
      assert PairValue(hex[0], hex[1]) == bytes[0];
      assert [bytes[0]] + bytes[1..] == bytes;
    }
  }

  lemma HexRoundTrip(bytes: seq<Byte>)
    ensures HexDecode(HexEncode(bytes)) == Success(bytes)
  {
    DecodeEncoded(bytes, 0);
  }

  // ---------------------------------------------------------------------------
  // parse_transaction_structure

  const SaplingLabel := "Sapling (v4)"
  const Nu5Label := "NU5 with Orchard (v5)"
  const LegacyLabel := "Legacy or Unknown"

  /** The values the structure report interpolates. */
  datatype TxInfo = TxInfo(version: nat, tag: string, size: nat, format: string)

  /** `u32::from_le_bytes` of the first four bytes, or 0 for a shorter transaction. */
  function Version(txBytes: seq<Byte>): (v: nat)
    ensures v < 0x1_0000_0000
    ensures |txBytes| < 4 ==> v == 0
  {
    if |txBytes| >= 4 then
      var b0: int, b1: int, b2: int, b3: int := txBytes[0], txBytes[1], txBytes[2], txBytes[3];
      b0 + 0x100 * b1 + 0x1_0000 * b2 + 0x100_0000 * b3
    else 0
  }

  function FormatLabel(version: nat): string
  {
    match version
    case 4 => SaplingLabel
    case 5 => Nu5Label
    case _ => LegacyLabel
  }

  /** `parse_transaction_structure(tx_bytes)` */
  function ParseTransactionStructure(txBytes: seq<Byte>): TxInfo
  {
    var version := Version(txBytes);
    TxInfo(version, if version == 5 then "NU5" else "Legacy", |txBytes|, FormatLabel(version))
  }

  /** The header word is read little-endian: the version is 5 exactly for the bytes 05 00 00 00. */
  lemma VersionFiveBytes(txBytes: seq<Byte>)
    requires |txBytes| >= 4
    ensures Version(txBytes) == 5 <==> txBytes[..4] == [5, 0, 0, 0]
    ensures Version(txBytes) == 4 <==> txBytes[..4] == [4, 0, 0, 0]
  {
    if Version(txBytes) == 5 || Version(txBytes) == 4 {
      assert txBytes[3] == 0 && txBytes[2] == 0 && txBytes[1] == 0;
    }
  }

  /** The report's labels agree: the tag is "NU5" exactly when the format is the NU5 one. */
  lemma LabelsAgree(txBytes: seq<Byte>)
    ensures var info := ParseTransactionStructure(txBytes);
      (info.tag == "NU5" <==> info.format == Nu5Label) && info.size == |txBytes|
      && (info.format == SaplingLabel <==> info.version == 4)
  {
    assert LegacyLabel != Nu5Label by { assert LegacyLabel[0] != Nu5Label[0]; }
    assert SaplingLabel != Nu5Label by { assert SaplingLabel[0] != Nu5Label[0]; }
    assert LegacyLabel != SaplingLabel by { assert LegacyLabel[0] != SaplingLabel[0]; }
  }

  /**
   * The fOverwintered flag (the top bit of the header word) is not masked:
   * a version 4 header as it is written on the chain, 04 00 00 80, reads as
   * 0x80000004 and is labelled legacy, although its low 31 bits are 4.
   */
  lemma OverwinteredHeaderUnrecognised(txBytes: seq<Byte>)
    requires |txBytes| >= 4 && txBytes[..4] == [4, 0, 0, 0x80]
    ensures Version(txBytes) == 0x8000_0004
    ensures Version(txBytes) % 0x8000_0000 == 4
    ensures ParseTransactionStructure(txBytes).format == LegacyLabel
  {
    assert txBytes[0] == 4 && txBytes[1] == 0 && txBytes[2] == 0 && txBytes[3] == 0x80;
  }

  // ---------------------------------------------------------------------------
  // decrypt_memo

  const RequiredError := "Viewing key and transaction hex are required"
  const KeyFormatError := "Invalid viewing key format. Mainnet UFVKs start with 'uview1'"
  const HexErrorPrefix := "Invalid transaction hex: "

  /** The values the success memo interpolates: the byte count, the key's first 20 bytes and the structure report. */
  datatype Memo = NoMemo | Report(byteCount: nat, keyHead: seq<Byte>, info: TxInfo)

  /** `DecryptResult` as serialised. */
  datatype DecryptResult = DecryptResult(success: bool, memo: Memo, error: Option<string>)

  /** `error_result(message)` */
  function ErrorResult(message: string): (r: DecryptResult)
    ensures !r.success && r.memo == NoMemo && r.error == Some(message)
  {
    DecryptResult(false, NoMemo, Some(message))
  }

  /**
   * `decrypt_memo(viewing_key, tx_hex)`. `None` is a panic. `describe` is
   * the `Display` text of the hex crate's error, which is not part of this
   * model.
   */
  function DecryptMemo(viewingKey: seq<Byte>, txHex: seq<Byte>, describe: FromHexError -> string): Option<DecryptResult>
  {
    if |viewingKey| == 0 || |txHex| == 0 then Some(ErrorResult(RequiredError))
    else if !StartsWith(viewingKey, Ascii("uview")) then Some(ErrorResult(KeyFormatError))
    else
      match HexDecode(txHex)
      case Failure(e) => Some(ErrorResult(HexErrorPrefix + describe(e)))
      case Success(txBytes) =>
        var info := ParseTransactionStructure(txBytes);
        var keyHead := SliceTo(viewingKey, 20);
        if keyHead.None? then None
        else Some(DecryptResult(true, Report(|txBytes|, keyHead.value, info), None))
  }

  /**
   * The order of `decrypt_memo`'s checks and what each outcome carries:
   * empty input first, then the key prefix, then the hex; success reports
   * half the hex length as the byte count; a key under 20 bytes (or cut
   * inside a character at byte 20) that passes every check panics.
   */
  lemma DecryptMemoCases(viewingKey: seq<Byte>, txHex: seq<Byte>, describe: FromHexError -> string)
    ensures |viewingKey| == 0 || |txHex| == 0 ==> DecryptMemo(viewingKey, txHex, describe) == Some(ErrorResult(RequiredError))
    ensures |viewingKey| > 0 && |txHex| > 0 && !StartsWith(viewingKey, Ascii("uview")) ==>
              DecryptMemo(viewingKey, txHex, describe) == Some(ErrorResult(KeyFormatError))
    ensures |viewingKey| > 0 && StartsWith(viewingKey, Ascii("uview")) && |txHex| % 2 != 0 ==>
              DecryptMemo(viewingKey, txHex, describe) == Some(ErrorResult(HexErrorPrefix + describe(OddLength)))
    ensures DecryptMemo(viewingKey, txHex, describe) == None <==>
              && StartsWith(viewingKey, Ascii("uview")) && |txHex| > 0 && HexDecode(txHex).Success?
              && !(20 <= |viewingKey| && IsCharBoundary(viewingKey, 20))
    ensures var r := DecryptMemo(viewingKey, txHex, describe);
      r.Some? && r.value.success ==>
        && r.value.error == None && r.value.memo.Report?
        && r.value.memo.byteCount == |txHex| / 2 && |txHex| % 2 == 0
        && r.value.memo.keyHead == viewingKey[..20]
  {
  }

  /** A result is either an error with no memo or a success with no error. */
  lemma ResultShape(viewingKey: seq<Byte>, txHex: seq<Byte>, describe: FromHexError -> string)
    ensures var r := DecryptMemo(viewingKey, txHex, describe);
      r.Some? ==> (r.value.success <==> r.value.error.None?) && (r.value.success <==> r.value.memo.Report?)
  {
  }

  // ---------------------------------------------------------------------------
  // scan_for_transactions

  /** The fields of the scan report that depend on the arguments. */
  datatype ScanReport = ScanReport(status: string, fingerprint: seq<Byte>, blocksToScan: nat, transactionsFound: nat)

  /** `scan_for_transactions(viewing_key, blocks_to_scan)`: `None` is the panic at `&viewing_key[..15]`. */
  function ScanForTransactions(viewingKey: seq<Byte>, blocksToScan: nat): (r: Option<ScanReport>)
    requires blocksToScan < 0x1_0000_0000
    ensures r.Some? <==> |viewingKey| >= 15 && IsCharBoundary(viewingKey, 15)
    ensures r.Some? ==> r.value.transactionsFound == 0 && r.value.blocksToScan == blocksToScan
                        && r.value.fingerprint == viewingKey[..15]
  {
    var fingerprint := SliceTo(viewingKey, 15);
    if fingerprint.None? then None
    else Some(ScanReport("ready", fingerprint.value, blocksToScan, 0))
  }
}
