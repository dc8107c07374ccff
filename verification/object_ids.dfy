/** The document key type: a 12-byte ObjectId, its textual form (24 hex
    digits) and the parser every service applies to the `:id` path parameter. */
module ObjectIds {
  import opened Wrappers

  newtype Byte = x: int | 0 <= x < 256

  /** An ObjectId is exactly twelve bytes. */
  type ObjectId = b: seq<Byte> | |b| == 12 witness [0, 0, 0, 0, 0, 0, 0, 0, 0, 0, 0, 0]

  /** The zero ObjectId, which `IsZero` reports and `omitempty` leaves out. */
  const Zero: ObjectId := [0, 0, 0, 0, 0, 0, 0, 0, 0, 0, 0, 0]

  /** What the driver's generator hands out: never the zero id, since every
      generated id embeds a timestamp, a process nonce and a counter. */
  type FreshId = id: ObjectId | id != Zero witness [1, 0, 0, 0, 0, 0, 0, 0, 0, 0, 0, 0]

  function HexValue(c: char): (r: Option<nat>)
    ensures r.Some? ==> r.value < 16
  {
    if '0' <= c <= '9' then Some(c as int - '0' as int)
    else if 'a' <= c <= 'f' then Some(c as int - 'a' as int + 10)
    else if 'A' <= c <= 'F' then Some(c as int - 'A' as int + 10)
    else None
  }

  predicate IsHexDigit(c: char) {
    HexValue(c).Some?
  }

  /** The textual form the parser accepts: 24 hexadecimal digits, either case. */
  predicate IsObjectIdHex(s: string) {
    |s| == 24 && forall i :: 0 <= i < |s| ==> IsHexDigit(s[i])
  }

  /** Lower-case hex digit for a nibble. */
  function HexDigit(n: nat): (c: char)
    requires n < 16
    ensures HexValue(c) == Some(n)
    ensures !('A' <= c <= 'F')
  {
    if n < 10 then ('0' as int + n) as char else ('a' as int + n - 10) as char
  }

  /** Decodes pairs of hex digits into bytes; fails on any non-hex character. */
  function DecodeHex(s: string): (r: Option<seq<Byte>>)
    requires |s| % 2 == 0
    ensures r.Some? <==> forall i :: 0 <= i < |s| ==> IsHexDigit(s[i])
    ensures r.Some? ==> |r.value| == |s| / 2
    decreases |s|
  {
    if s == [] then Some([])
    else
      var rest := DecodeHex(s[2..]);
      assert forall i :: 2 <= i < |s| ==> s[i] == s[2..][i - 2];
      match (HexValue(s[0]), HexValue(s[1]), rest)
      case (Some(hi), Some(lo), Some(tail)) => Some([(hi * 16 + lo) as Byte] + tail)
      case _ => None
  }

  /** Lower-case hex rendering of a byte string (the driver's `Hex()`). */
  function EncodeHex(b: seq<Byte>): (s: string)
    ensures |s| == 2 * |b|
  {
    if b == [] then [] else [HexDigit(b[0] as int / 16), HexDigit(b[0] as int % 16)] + EncodeHex(b[1..])
  }

  /** The 24-character lower-case text of an id, as it appears in URLs. */
  function Hex(id: ObjectId): string {
    EncodeHex(id)
  }

  /** `primitive.ObjectIDFromHex`: exactly 24 hex digits, else an error. */
  function ParseObjectId(s: string): (r: Option<ObjectId>)
    ensures r.Some? <==> IsObjectIdHex(s)
  {
    if |s| != 24 then None
    else
      match DecodeHex(s)
      case Some(b) => Some(b)
      case None => None
  }

  lemma {:induction false} DecodeEncodeHex(b: seq<Byte>)
    ensures DecodeHex(EncodeHex(b)) == Some(b)
    decreases |b|
  {
    if b != [] {
      var s := EncodeHex(b);
      assert s[2..] == EncodeHex(b[1..]);
      DecodeEncodeHex(b[1..]);
      var hi, lo := b[0] as int / 16, b[0] as int % 16;
      assert HexValue(s[0]) == Some(hi) && HexValue(s[1]) == Some(lo);
      assert (hi * 16 + lo) as Byte == b[0];
      assert b == [b[0]] + b[1..];
    }
  }

  /** Parsing the printed form of an id gives the id back. */
  lemma ParseHexRoundTrip(id: ObjectId)
    ensures ParseObjectId(Hex(id)) == Some(id)
  {
    DecodeEncodeHex(id);
  }

  /** Parsing is case-insensitive although printing is lower case: two
      spellings whose digits have the same values name the same key. */
  lemma ParseIgnoresCase(s: string, t: string)
    requires |s| == |t|
    requires forall i :: 0 <= i < |s| ==> HexValue(s[i]) == HexValue(t[i])
    ensures ParseObjectId(s) == ParseObjectId(t)
  {
    if |s| == 24 {
      SamePairsDecodeAlike(s, t);
    }
  }

  /** Two strings whose characters have pairwise equal hex values decode alike. */
  lemma {:induction false} SamePairsDecodeAlike(s: string, t: string)
    requires |s| == |t| && |s| % 2 == 0
    requires forall i :: 0 <= i < |s| ==> HexValue(s[i]) == HexValue(t[i])
    ensures DecodeHex(s) == DecodeHex(t)
    decreases |s|
  {
    if s != [] {
      SamePairsDecodeAlike(s[2..], t[2..]);
    }
  }
}
