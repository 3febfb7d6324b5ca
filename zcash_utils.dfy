/**
 * `validateUFVK`, `truncateTxId` and `decodeMemo`: the prefix-and-length check
 * of a Unified Full Viewing Key, the shortening of a transaction id for
 * display, and the decoding of a hex memo field into printable text.
 */
module ZcashUtils {
  import opened Wrappers
  import opened JsString

  datatype Network = Mainnet | Testnet

  /** What `validateUFVK` may be handed: a string, or anything else. */
  datatype JsValue = Str(s: string) | NonString

  /** `UFVKValidation`: `network` and `error` are the optional fields of the object. */
  datatype UFVKValidation = UFVKValidation(isValid: bool, network: Option<Network>, error: Option<string>)

  const KeyRequired := "Viewing key is required"
  const KeyTooShort := "Viewing key appears too short"
  const SaplingKey := "This appears to be a Sapling viewing key. Please use a Unified Full Viewing Key (starts with uview1)"
  const BadFormat := "Invalid viewing key format. Mainnet UFVKs start with \"uview1\", testnet with \"uviewtest1\""

  /** The shortest length accepted for a unified viewing key. */
  const MinUfvkLength: nat := 100

  function Invalid(error: string): UFVKValidation
  {
    UFVKValidation(false, None, Some(error))
  }

  function Valid(network: Network): UFVKValidation
  {
    UFVKValidation(true, Some(network), None)
  }

  /** `validateUFVK(ufvk)` */
  function ValidateUFVK(ufvk: JsValue): (r: UFVKValidation)
    ensures r.isValid <==> r.network.Some?
    ensures r.isValid <==> r.error.None?
    ensures !r.isValid ==> r.error.value != ""
  {
    if ufvk.NonString? || ufvk.s == "" then Invalid(KeyRequired)
    else CheckTrimmed(Trim(ufvk.s))
  }

  /** The prefix and length rules `validateUFVK` applies to the trimmed key. */
  function CheckTrimmed(trimmed: string): (r: UFVKValidation)
    ensures r.isValid <==> r.network.Some?
    ensures r.isValid <==> r.error.None?
    ensures !r.isValid ==> r.error.value != ""
  {
    if StartsWith(trimmed, "uview1") then
      if |trimmed| < MinUfvkLength then Invalid(KeyTooShort) else Valid(Mainnet)
    else if StartsWith(trimmed, "uviewtest1") then
      if |trimmed| < MinUfvkLength then Invalid(KeyTooShort) else Valid(Testnet)
    else if StartsWith(trimmed, "zxviews") || StartsWith(trimmed, "zxviewtestsapling") then Invalid(SaplingKey)
    else Invalid(BadFormat)
  }

  /** No key starts with both unified prefixes, so the prefix alone fixes the network. */
  lemma UnifiedPrefixesDisjoint(s: string)
    ensures !(StartsWith(s, "uview1") && StartsWith(s, "uviewtest1"))
  {
    if StartsWith(s, "uview1") {
      assert s[5] == "uview1"[5];
      assert |s| >= 10 ==> s[..10][5] != "uviewtest1"[5];
    }
  }

  /**
   * A key is accepted exactly when, once trimmed, it has a unified prefix and
   * at least 100 characters; the prefix gives the network. Every rejection
   * carries the message of the first rule the key breaks.
   */
  lemma ValidateUFVKCases(ufvk: JsValue)
    ensures ufvk.NonString? || ufvk == Str("") ==> ValidateUFVK(ufvk) == Invalid(KeyRequired)
    ensures ufvk.Str? && ufvk.s != "" ==>
      var t := Trim(ufvk.s);
      && (ValidateUFVK(ufvk) == Valid(Mainnet) <==> StartsWith(t, "uview1") && |t| >= MinUfvkLength)
      && (ValidateUFVK(ufvk) == Valid(Testnet) <==> StartsWith(t, "uviewtest1") && |t| >= MinUfvkLength)
      && (ValidateUFVK(ufvk) == Invalid(KeyTooShort) <==>
            (StartsWith(t, "uview1") || StartsWith(t, "uviewtest1")) && |t| < MinUfvkLength)
      && (ValidateUFVK(ufvk) == Invalid(SaplingKey) <==>
            !StartsWith(t, "uview1") && !StartsWith(t, "uviewtest1")
            && (StartsWith(t, "zxviews") || StartsWith(t, "zxviewtestsapling")))
      && (ValidateUFVK(ufvk) == Invalid(BadFormat) <==>
            !StartsWith(t, "uview1") && !StartsWith(t, "uviewtest1")
            && !StartsWith(t, "zxviews") && !StartsWith(t, "zxviewtestsapling"))
  {
    if ufvk.Str? && ufvk.s != "" {
      UnifiedPrefixesDisjoint(Trim(ufvk.s));
    }
  }

  /**
   * Surrounding whitespace is ignored: a key and its trimmed form get the same
   * answer, unless trimming leaves nothing (a blank key is not "required" but
   * badly formatted).
   */
  lemma ValidateIgnoresWhitespace(s: string)
    requires Trim(s) != ""
    ensures ValidateUFVK(Str(Trim(s))) == ValidateUFVK(Str(s))
  {
    assert s != "";
    TrimIdempotent(s);
    assert ValidateUFVK(Str(s)) == CheckTrimmed(Trim(s));
    assert ValidateUFVK(Str(Trim(s))) == CheckTrimmed(Trim(Trim(s)));
  }

  // ---------------------------------------------------------------------------
  // truncateTxId

  /**
   * `truncateTxId(txid, startChars, endChars)`: the id itself when it is at
   * most `startChars + endChars + 3` long, otherwise its first `startChars`
   * characters, "..." and its last `endChars` characters, where
   * `slice(-0)` makes `endChars = 0` keep the whole id.
   */
  function TruncateTxId(txid: string, startChars: nat, endChars: nat): (r: string)
  {
    if |txid| <= startChars + endChars + 3 then txid
    else txid[..startChars] + "..." + (if endChars == 0 then txid else txid[|txid| - endChars..])
  }

  /**
   * A truncated id keeps the head and the tail of the original around "...",
   * and is strictly shorter than it; with `endChars = 0` it is instead the
   * head, "..." and the whole id again.
   */
  lemma TruncateTxIdShape(txid: string, startChars: nat, endChars: nat)
    ensures var r := TruncateTxId(txid, startChars, endChars);
      && (|txid| <= startChars + endChars + 3 ==> r == txid)
      && (|txid| > startChars + endChars + 3 ==>
            && r[..startChars] == txid[..startChars]
            && r[startChars..startChars + 3] == "..."
            && (endChars > 0 ==> |r| == startChars + endChars + 3 < |txid| && r[startChars + 3..] == txid[|txid| - endChars..])
            && (endChars == 0 ==> |r| == startChars + 3 + |txid| && r[startChars + 3..] == txid))
  {
  }

  /** With a positive `endChars`, truncation never makes an id longer. */
  lemma TruncateNeverLonger(txid: string, startChars: nat, endChars: nat)
    requires endChars > 0
    ensures |TruncateTxId(txid, startChars, endChars)| <= |txid|
    ensures |TruncateTxId(txid, startChars, endChars)| == |txid| <==> TruncateTxId(txid, startChars, endChars) == txid
  {
    TruncateTxIdShape(txid, startChars, endChars);
  }

  // ---------------------------------------------------------------------------
  // decodeMemo

  type Byte = x: int | 0 <= x < 256

  /**
   * `s.match(/.{1,2}/g) || []`: greedy runs of one or two characters other
   * than line terminators, which are skipped.
   */
  function Chunks(s: string): seq<string>
    decreases |s|
  {
    if s == [] then []
    else if IsLineTerminator(s[0]) then Chunks(s[1..])
    else if |s| >= 2 && !IsLineTerminator(s[1]) then [s[..2]] + Chunks(s[2..])
    else [s[..1]] + Chunks(s[1..])
  }

  /** The longest prefix of `s` made of hex digits. */
  function HexDigitsPrefix(s: string): (r: string)
    ensures |r| <= |s| && r == s[..|r|]
    ensures forall i | 0 <= i < |r| :: IsHexChar(r[i])
    ensures |r| < |s| ==> !IsHexChar(s[|r|])
  {
    if s != [] && IsHexChar(s[0]) then [s[0]] + HexDigitsPrefix(s[1..]) else []
  }

  /** The value of a string of hex digits. */
  function HexValue(digits: string): (v: nat)
    requires forall i | 0 <= i < |digits| :: IsHexChar(digits[i])
  {
    if digits == [] then 0 else HexValue(digits[..|digits| - 1]) * 16 + HexCharValue(digits[|digits| - 1])
  }

  /**
   * `parseInt(s, 16)`, `None` for NaN: leading whitespace is skipped, one sign
   * is read, a `0x`/`0X` prefix is dropped, and the longest run of hex digits
   * that follows is the value.
   */
  function ParseIntHex(s: string): Option<int>
  {
    var t := TrimStart(s);
    var negative := t != [] && t[0] == '-';
    var unsigned := if t != [] && (t[0] == '-' || t[0] == '+') then t[1..] else t;
    var body := if |unsigned| >= 2 && unsigned[0] == '0' && (unsigned[1] == 'x' || unsigned[1] == 'X')
                then unsigned[2..] else unsigned;
    var digits := HexDigitsPrefix(body);
    if digits == [] then None
    else
      var magnitude: int := HexValue(digits);
      Some(if negative then -magnitude else magnitude)
  }

  /** The `Uint8Array` conversion of a parsed number: NaN is 0, the rest is taken modulo 256. */
  function ToUint8(n: Option<int>): Byte
  {
    if n.None? then 0 else n.value % 256
  }

  /** One element of `new Uint8Array(...)`: `parseInt(byte, 16)` converted to a byte. */
  function ByteOf(chunk: string): Byte
  {
    ToUint8(ParseIntHex(chunk))
  }

  /** `new Uint8Array(memoHex.match(/.{1,2}/g)?.map(byte => parseInt(byte, 16)) || [])` */
  function HexToBytes(memoHex: string): (bytes: seq<Byte>)
  {
    var chunks := Chunks(memoHex);
    seq(|chunks|, k requires 0 <= k < |chunks| => ByteOf(chunks[k]))
  }

  /** `bytes.indexOf(0)`, or `bytes.length` when there is no 0. */
  function FirstZero(bytes: seq<Byte>): (i: nat)
    ensures i <= |bytes|
    ensures i < |bytes| ==> bytes[i] == 0
    ensures forall k | 0 <= k < i :: bytes[k] != 0
  {
    if bytes == [] || bytes[0] == 0 then 0 else 1 + FirstZero(bytes[1..])
  }

  /** The bytes that are decoded: everything before the first 0. */
  function MemoBytes(memoHex: string): (r: seq<Byte>)
    ensures forall k | 0 <= k < |r| :: r[k] != 0
  {
    var bytes := HexToBytes(memoHex);
    bytes[..FirstZero(bytes)]
  }

  /** The characters `/[\x00-\x1F\x7F-\x9F]/g` removes. */
  predicate IsControl(c: char)
  {
    c <= '\U{1F}' || '\U{7F}' <= c <= '\U{9F}'
  }

  function RemoveControl(s: string): (r: string)
    ensures forall k | 0 <= k < |r| :: !IsControl(r[k])
    ensures |r| <= |s|
  {
    if s == [] then []
    else (if IsControl(s[0]) then [] else [s[0]]) + RemoveControl(s[1..])
  }

  /**
   * `decodeMemo(memoHex)`; `utf8Decode` is the non-fatal UTF-8 `TextDecoder`.
   * The result holds no control character and has no surrounding whitespace.
   */
  function DecodeMemo(memoHex: string, utf8Decode: seq<Byte> -> string): (r: string)
    ensures forall k | 0 <= k < |r| :: !IsControl(r[k])
    ensures r == [] || (!IsJsWhitespace(r[0]) && !IsJsWhitespace(r[|r| - 1]))
  {
    var text := utf8Decode(MemoBytes(memoHex));
    var printable := RemoveControl(text);
    var r := Trim(printable);
    TrimKeepsPrintable(printable);
    r
  }

  /** A single character survives exactly when it is not a control character. */
  lemma RemoveControlOne(c: char)
    ensures RemoveControl([c]) == if IsControl(c) then [] else [c]
  {
    assert [c][1..] == [];
  }

  /**
   * The removal works character by character: the text is filtered piece by
   * piece, so the surviving characters keep their order and multiplicity.
   */
  lemma {:induction false} RemoveControlAppend(a: string, b: string)
    ensures RemoveControl(a + b) == RemoveControl(a) + RemoveControl(b)
    decreases |a|
  {
    if a == [] {
      assert a + b == b;
    } else {
      assert (a + b)[0] == a[0];
      assert (a + b)[1..] == a[1..] + b;
      RemoveControlAppend(a[1..], b);
    }
  }

  /** Text without control characters passes through unchanged. */
  lemma {:induction false} RemoveControlKeepsPrintable(s: string)
    requires forall k | 0 <= k < |s| :: !IsControl(s[k])
    ensures RemoveControl(s) == s
    decreases |s|
  {
    if s != [] {
      RemoveControlKeepsPrintable(s[1..]);
    }
  }

  /**
   * A memo whose decoded text is printable and has no surrounding whitespace
   * is shown exactly as decoded.
   */
  lemma DecodeMemoKeepsText(memoHex: string, utf8Decode: seq<Byte> -> string)
    requires forall k | 0 <= k < |utf8Decode(MemoBytes(memoHex))| :: !IsControl(utf8Decode(MemoBytes(memoHex))[k])
    requires var t := utf8Decode(MemoBytes(memoHex)); t == [] || (!IsJsWhitespace(t[0]) && !IsJsWhitespace(t[|t| - 1]))
    ensures DecodeMemo(memoHex, utf8Decode) == utf8Decode(MemoBytes(memoHex))
  {
    var text := utf8Decode(MemoBytes(memoHex));
    RemoveControlKeepsPrintable(text);
    TrimKeeps(text);
  }

  /** Trimming only removes characters, so a string without control characters keeps none. */
  lemma TrimKeepsPrintable(s: string)
    requires forall k | 0 <= k < |s| :: !IsControl(s[k])
    ensures forall k | 0 <= k < |Trim(s)| :: !IsControl(Trim(s)[k])
  {
    var r := Trim(s);
    var off := |s| - |TrimStart(s)|;
    assert r == s[off..off + |r|];
    forall k | 0 <= k < |r| ensures !IsControl(r[k]) {
      assert r[k] == s[off + k];
    }
  }

  // ---------------------------------------------------------------------------
  // The memo round trip.

  function HexDigit(v: nat): (c: char)
    requires v < 16
    ensures IsHexChar(c) && !IsLineTerminator(c) && !IsJsWhitespace(c) && HexCharValue(c) == v
  {
    "0123456789abcdef"[v]
  }

  /** Two lowercase hex digits per byte. */
  function HexEncode(bytes: seq<Byte>): (s: string)
    ensures |s| == 2 * |bytes|
  {
    if bytes == [] then [] else Pair(bytes[0]) + HexEncode(bytes[1..])
  }

  /** A pair of hex digits parses to the byte it encodes. */
  lemma ParsePair(b: Byte)
    ensures ParseIntHex(Pair(b)) == Some(b)
  {
    var s := Pair(b);
    assert TrimStart(s) == s;
    assert !(s[1] == 'x' || s[1] == 'X');
    assert HexDigitsPrefix(s[2..]) == [];
    assert HexDigitsPrefix(s) == s;
    assert s[..1] == [HexDigit(b / 16)];
    assert HexValue(s[..1]) == b / 16;
  }

  /** The two digits of a byte. */
  function Pair(b: Byte): (p: string)
    ensures |p| == 2 && !IsLineTerminator(p[0]) && !IsLineTerminator(p[1])
  {
    [HexDigit(b / 16), HexDigit(b % 16)]
  }

  lemma ChunksPair(a: string, b: string)
    requires |a| == 2 && !IsLineTerminator(a[0]) && !IsLineTerminator(a[1])
    ensures Chunks(a + b) == [a] + Chunks(b)
  {
    assert (a + b)[..2] == a;
    assert (a + b)[2..] == b;
  }

  /** A string read two characters at a time, no line terminator among them. */
  predicate Paired(a: string)
  {
    |a| % 2 == 0 && forall i | 0 <= i < |a| :: !IsLineTerminator(a[i])
  }

  lemma {:induction false} ChunksAppend(a: string, b: string)
    requires Paired(a)
    ensures Chunks(a + b) == Chunks(a) + Chunks(b)
    decreases |a|
  {
    if a == [] {
      assert a + b == b;
    } else {
      var head, tail := a[..2], a[2..];
      assert a == head + tail;
      assert a + b == head + (tail + b);
      ChunksPair(head, tail + b);
      ChunksPair(head, tail);
      ChunksAppend(tail, b);
    }
  }

  lemma {:induction false} EncodingPaired(bytes: seq<Byte>)
    ensures Paired(HexEncode(bytes))
  {
    if bytes != [] {
      EncodingPaired(bytes[1..]);
      var s := HexEncode(bytes);
      assert s == Pair(bytes[0]) + HexEncode(bytes[1..]);
      forall i | 0 <= i < |s| ensures !IsLineTerminator(s[i]) {
        if i >= 2 {
          assert s[i] == HexEncode(bytes[1..])[i - 2];
        }
      }
    }
  }

  lemma {:induction false} ChunksOfEncoding(bytes: seq<Byte>)
    ensures |Chunks(HexEncode(bytes))| == |bytes|
    ensures forall k | 0 <= k < |bytes| :: Chunks(HexEncode(bytes))[k] == Pair(bytes[k])
  {
    if bytes != [] {
      var head := Pair(bytes[0]);
      var tail := HexEncode(bytes[1..]);
      assert HexEncode(bytes) == head + tail;
      ChunksPair(head, tail);
      ChunksOfEncoding(bytes[1..]);
      var c := Chunks(HexEncode(bytes));
      assert c == [head] + Chunks(tail);
      forall k | 0 <= k < |bytes| ensures c[k] == Pair(bytes[k]) {
        if k > 0 {
          assert c[k] == Chunks(tail)[k - 1];
          assert bytes[1..][k - 1] == bytes[k];
        }
      }
    }
  }

  lemma ByteOfPair(b: Byte)
    ensures ByteOf(Pair(b)) == b
  {
    ParsePair(b);
  }

  /** Hex-encoding bytes and reading them back gives the bytes, so the memo is every byte before the first 0. */
  lemma HexRoundTrip(bytes: seq<Byte>)
    ensures HexToBytes(HexEncode(bytes)) == bytes
    ensures MemoBytes(HexEncode(bytes)) == bytes[..FirstZero(bytes)]
  {
    ChunksOfEncoding(bytes);
    var chunks := Chunks(HexEncode(bytes));
    var decoded := HexToBytes(HexEncode(bytes));
    assert |decoded| == |bytes|;
    forall k | 0 <= k < |bytes| ensures decoded[k] == bytes[k] {
      assert decoded[k] == ByteOf(chunks[k]);
      ByteOfPair(bytes[k]);
    }
    assert decoded == bytes;
  }

  lemma HexToBytesAppend(a: string, b: string)
    requires Paired(a)
    ensures HexToBytes(a + b) == HexToBytes(a) + HexToBytes(b)
  {
    ChunksAppend(a, b);
    var c, ca, cb := Chunks(a + b), Chunks(a), Chunks(b);
    var x, xa, xb := HexToBytes(a + b), HexToBytes(a), HexToBytes(b);
    assert |x| == |xa| + |xb|;
    assert c == ca + cb;
    forall k | 0 <= k < |x| ensures x[k] == (xa + xb)[k] {
      assert x[k] == ByteOf(c[k]);
      if k < |ca| {
        assert c[k] == ca[k] && xa[k] == ByteOf(ca[k]);
      } else {
        assert c[k] == cb[k - |ca|] && xb[k - |ca|] == ByteOf(cb[k - |ca|]);
      }
    }
  }

  /** "zz" holds no hex digit: `parseInt` gives NaN, which becomes the byte 0. */
  lemma NonHexPairIsZero(rest: string)
    ensures |HexToBytes("zz" + rest)| > 0 && HexToBytes("zz" + rest)[0] == 0
  {
    ChunksPair("zz", rest);
    assert HexDigitsPrefix("zz") == [];
    assert ParseIntHex("zz") == None;
    assert Chunks("zz" + rest)[0] == "zz";
  }

  /** A pair that does not start a hex number (here "zz") is read as 0 and so ends the memo there. */
  lemma NonHexPairEndsMemo(prefix: seq<Byte>, rest: string)
    requires forall k | 0 <= k < |prefix| :: prefix[k] != 0
    ensures MemoBytes(HexEncode(prefix) + "zz" + rest) == prefix
  {
    var s := HexEncode(prefix) + "zz" + rest;
    assert s == HexEncode(prefix) + ("zz" + rest);
    EncodingPaired(prefix);
    HexToBytesAppend(HexEncode(prefix), "zz" + rest);
    HexRoundTrip(prefix);
    NonHexPairIsZero(rest);
    CutAtZero(prefix, HexToBytes("zz" + rest));
  }

  lemma CutAtZero(prefix: seq<Byte>, tail: seq<Byte>)
    requires forall k | 0 <= k < |prefix| :: prefix[k] != 0
    requires |tail| > 0 && tail[0] == 0
    ensures (prefix + tail)[..FirstZero(prefix + tail)] == prefix
  {
    FirstZeroAt(prefix + tail, |prefix|);
    assert (prefix + tail)[..|prefix|] == prefix;
  }

  lemma FirstZeroAt(bytes: seq<Byte>, i: nat)
    requires i < |bytes| && bytes[i] == 0
    requires forall k | 0 <= k < i :: bytes[k] != 0
    ensures FirstZero(bytes) == i
  {
  }
}
