/** The lock file `rcm-lock.json`: hexadecimal digests, the field map and the in-memory state. */
module LockState {
  import opened Wrappers

  type Byte = b: int | 0 <= b < 256

  // ---------------------------------------------------------------- hexadecimal digests

  function HexDigit(d: int): char
    requires 0 <= d < 16
  {
    if d < 10 then '0' + d as char else 'a' + (d - 10) as char
  }

  /** Both cases are read; only lower case is written. */
  function DigitValue(c: char): Option<int> {
    if '0' <= c <= '9' then Some(c as int - '0' as int)
    else if 'a' <= c <= 'f' then Some(c as int - 'a' as int + 10)
    else if 'A' <= c <= 'F' then Some(c as int - 'A' as int + 10)
    else None
  }

  /** `hex.EncodeToString`. */
  function EncodeHex(bytes: seq<Byte>): string {
    if bytes == [] then ""
    else [HexDigit(bytes[0] / 16), HexDigit(bytes[0] % 16)] + EncodeHex(bytes[1..])
  }

  /** `hex.DecodeString`. */
  function DecodeHex(s: string): Option<seq<Byte>> {
    if s == "" then Some([])
    else if |s| == 1 then None
    else
      match (DigitValue(s[0]), DigitValue(s[1]), DecodeHex(s[2..]))
      case (Some(hi), Some(lo), Some(rest)) =>
        if 0 <= hi < 16 && 0 <= lo < 16 then Some([hi * 16 + lo] + rest) else None
      case _ => None
  }

  function LowerDigit(c: char): char {
    if 'A' <= c <= 'F' then 'a' + (c as int - 'A' as int) as char else c
  }

  function LowerHex(s: string): string {
    if s == "" then "" else [LowerDigit(s[0])] + LowerHex(s[1..])
  }

  predicate AllHex(s: string) {
    forall i :: 0 <= i < |s| ==> DigitValue(s[i]).Some?
  }

  /** Decoding inverts encoding, for every byte sequence. */
  lemma {:induction false} DecodeEncode(bytes: seq<Byte>)
    ensures |EncodeHex(bytes)| == 2 * |bytes|
    ensures DecodeHex(EncodeHex(bytes)) == Some(bytes)
  {
    if bytes != [] {
      DecodeEncode(bytes[1..]);
      var s := EncodeHex(bytes);
      assert s[2..] == EncodeHex(bytes[1..]);
      assert [bytes[0]] + bytes[1..] == bytes;
    }
  }

  const HEX := "0123456789abcdef"

  lemma {:induction false} EncodeLength(bytes: seq<Byte>)
    ensures |EncodeHex(bytes)| == 2 * |bytes|
  {
    if bytes != [] {
      EncodeLength(bytes[1..]);
    }
  }

  /** The digits that encode a byte sequence: for each byte its high half, then its low half. */
  lemma {:induction false} EncodeDigits(bytes: seq<Byte>, i: nat)
    requires i < |bytes|
    ensures 2 * i + 1 < |EncodeHex(bytes)|
    ensures EncodeHex(bytes)[2 * i] == HEX[bytes[i] / 16] && EncodeHex(bytes)[2 * i + 1] == HEX[bytes[i] % 16]
  {
    EncodeLength(bytes);
    DigitIsHex(bytes[0] / 16);
    DigitIsHex(bytes[0] % 16);
    var text, rest := EncodeHex(bytes), EncodeHex(bytes[1..]);
    assert text == [HEX[bytes[0] / 16], HEX[bytes[0] % 16]] + rest;
    if i > 0 {
      EncodeDigits(bytes[1..], i - 1);
      hide EncodeHex;
      var j := 2 * i - 2;
      assert text[j + 2] == rest[j] && text[j + 3] == rest[j + 1];
    }
  }

  lemma DigitIsHex(d: int)
    requires 0 <= d < 16
    ensures HexDigit(d) == HEX[d]
  {
    assert HEX[0] == '0' && HEX[1] == '1' && HEX[2] == '2' && HEX[3] == '3' && HEX[4] == '4' && HEX[5] == '5';
    assert HEX[6] == '6' && HEX[7] == '7' && HEX[8] == '8' && HEX[9] == '9';
    assert HEX[10] == 'a' && HEX[11] == 'b' && HEX[12] == 'c' && HEX[13] == 'd' && HEX[14] == 'e' && HEX[15] == 'f';
  }

  /** Exactly the even-length strings of hexadecimal digits are accepted. */
  lemma {:induction false} DecodeAccepts(s: string)
    ensures DecodeHex(s).Some? <==> |s| % 2 == 0 && AllHex(s)
    decreases |s|
  {
    if |s| >= 2 {
      DecodeAccepts(s[2..]);
      assert AllHex(s) <==> DigitValue(s[0]).Some? && DigitValue(s[1]).Some? && AllHex(s[2..]) by {
        if AllHex(s[2..]) && DigitValue(s[0]).Some? && DigitValue(s[1]).Some? {
          forall i | 0 <= i < |s| ensures DigitValue(s[i]).Some? {
            if i >= 2 {
              assert s[i] == s[2..][i - 2];
            }
          }
        }
      }
    }
  }

  /** Re-encoding a decoded digest only lowers the case of its letters. */
  lemma {:induction false} EncodeDecode(s: string)
    requires DecodeHex(s).Some?
    ensures EncodeHex(DecodeHex(s).value) == LowerHex(s)
    decreases |s|
  {
    if s != "" {
      var rest := DecodeHex(s[2..]).value;
      var b := DecodeHex(s).value;
      EncodeDecode(s[2..]);
      assert b[1..] == rest;
      assert s[1..][0] == s[1] && s[1..][1..] == s[2..];
      assert LowerHex(s[1..]) == [LowerDigit(s[1])] + LowerHex(s[2..]);
      assert HexDigit(b[0] / 16) == LowerDigit(s[0]) && HexDigit(b[0] % 16) == LowerDigit(s[1]);
    }
  }

  // ---------------------------------------------------------------- the lock file

  datatype Shim = Shim(sha256: seq<Byte>, path: string)

  /** A shim as its JSON fields. */
  datatype RawShim = RawShim(sha256: string, path: string)

  type Shims = map<string, Shim>

  /** What reading the lock file may find. */
  datatype LockFile = Missing | Unreadable | Malformed | Doc(shims: map<string, RawShim>)

  /** `MarshalJSON` on every entry. */
  function Marshal(shims: Shims): map<string, RawShim> {
    map k | k in shims :: RawShim(EncodeHex(shims[k].sha256), shims[k].path)
  }

  /** `UnmarshalJSON` on every entry; one bad digest fails the whole document. */
  function Unmarshal(raw: map<string, RawShim>): Option<Shims> {
    if forall k :: k in raw ==> DecodeHex(raw[k].sha256).Some?
    then Some(map k | k in raw :: Shim(DecodeHex(raw[k].sha256).value, raw[k].path))
    else None
  }

  /** `state.Get`: a missing file is an empty state, any other failure is an error. */
  function Get(lock: LockFile): Option<Shims> {
    match lock
    case Missing => Some(map[])
    case Doc(raw) => Unmarshal(raw)
    case _ => None
  }

  /** `ShimChanged`. */
  predicate ShimChanged(shims: Shims, name: string, sha256: seq<Byte>, path: string) {
    name !in shims || shims[name].sha256 != sha256 || shims[name].path != path
  }

  /** What is written is read back: `Get` after `Write` returns the same shim map. */
  lemma GetAfterWrite(shims: Shims)
    ensures Get(Doc(Marshal(shims))) == Some(shims)
  {
    var raw := Marshal(shims);
    forall k | k in raw ensures DecodeHex(raw[k].sha256) == Some(shims[k].sha256) {
      DecodeEncode(shims[k].sha256);
    }
    assert Unmarshal(raw).value == shims;
  }

  /** A digest that can be read: an even number of hexadecimal digits, in either case. */
  predicate ReadableDigest(s: string) {
    |s| % 2 == 0 && forall i :: 0 <= i < |s| ==> '0' <= s[i] <= '9' || 'a' <= s[i] <= 'f' || 'A' <= s[i] <= 'F'
  }

  /** Exactly when the lock can be read, and what is read: a missing file is an empty map; a document
      must have readable digests throughout, and gives every entry with its path and with the digest
      that is written in it, up to case. */
  lemma GetReads(lock: LockFile)
    ensures Get(lock).Some? <==> lock.Missing? || (lock.Doc? && forall k :: k in lock.shims ==> ReadableDigest(lock.shims[k].sha256))
    ensures lock.Missing? ==> Get(lock) == Some(map[])
    ensures lock.Doc? && Get(lock).Some? ==>
              && Get(lock).value.Keys == lock.shims.Keys
              && forall k :: k in lock.shims ==>
                   && Get(lock).value[k].path == lock.shims[k].path
                   && EncodeHex(Get(lock).value[k].sha256) == LowerHex(lock.shims[k].sha256)
  {
    if lock.Doc? {
      forall k | k in lock.shims
        ensures DecodeHex(lock.shims[k].sha256).Some? <==> ReadableDigest(lock.shims[k].sha256)
        ensures DecodeHex(lock.shims[k].sha256).Some? ==>
                  EncodeHex(DecodeHex(lock.shims[k].sha256).value) == LowerHex(lock.shims[k].sha256)
      {
        var sha := lock.shims[k].sha256;
        DecodeAccepts(sha);
        if DecodeHex(sha).Some? {
          EncodeDecode(sha);
        }
      }
    }
  }

  /** What is stored for a state: the same keys, each path, and the digest in lower-case digits. */
  lemma MarshalFields(shims: Shims, k: string)
    requires k in shims
    ensures Marshal(shims).Keys == shims.Keys && Marshal(shims)[k].path == shims[k].path
    ensures |Marshal(shims)[k].sha256| == 2 * |shims[k].sha256|
    ensures forall i :: 0 <= i < |shims[k].sha256| ==>
              && Marshal(shims)[k].sha256[2 * i] == "0123456789abcdef"[shims[k].sha256[i] / 16]
              && Marshal(shims)[k].sha256[2 * i + 1] == "0123456789abcdef"[shims[k].sha256[i] % 16]
  {
    var sha := shims[k].sha256;
    EncodeLength(sha);
    forall i | 0 <= i < |sha|
      ensures EncodeHex(sha)[2 * i] == HEX[sha[i] / 16] && EncodeHex(sha)[2 * i + 1] == HEX[sha[i] % 16]
    {
      EncodeDigits(sha, i);
    }
    hide EncodeHex;
  }

  /** The state object that an installer call reads, edits and writes back. */
  class State {
    var shims: Shims

    constructor (shims: Shims)
      ensures this.shims == shims
    {
      this.shims := shims;
    }

    method UpdateShim(name: string, shim: Shim)
      modifies this
      ensures shims == old(shims)[name := shim]
      ensures !ShimChanged(shims, name, shim.sha256, shim.path)
    {
      shims := shims[name := shim];
    }

    method RemoveShim(name: string)
      modifies this
      ensures name !in shims
      ensures forall k :: k in old(shims) && k != name ==> k in shims && shims[k] == old(shims)[k]
      ensures shims.Keys <= old(shims).Keys
      ensures shims == old(shims) - {name}
    {
      shims := shims - {name};
    }

    /** The document that `Write` stores; reading it gives this state back. */
    method Write() returns (doc: LockFile)
      ensures doc == Doc(Marshal(shims))
      ensures Get(doc) == Some(shims)
    {
      GetAfterWrite(shims);
      doc := Doc(Marshal(shims));
    }
  }
}
