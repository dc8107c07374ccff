/** `maskURI`: what the connection log line shows of `MONGODB_URI`. */
module MongoUri {
  const Mask: string := "mongodb://*****"

  /** Bytes of one character in UTF-8. */
  function Utf8Width(ch: char): (n: nat)
    ensures 1 <= n <= 4
  {
    if ch as int < 0x80 then 1
    else if ch as int < 0x800 then 2
    else if ch as int < 0x1_0000 then 3
    else 4
  }

  /** Go's `len` of a string: its UTF-8 byte count. */
  function Utf8Len(s: string): (n: nat)
    ensures |s| <= n <= 4 * |s|
  {
    if s == [] then 0 else Utf8Width(s[0]) + Utf8Len(s[1..])
  }

  /** Empty stays empty, anything over ten bytes becomes the fixed mask,
      and a short URI is shown as is. */
  function MaskUri(uri: string): (r: string)
    ensures r == "" <==> uri == ""
    ensures Utf8Len(uri) > 10 ==> r == Mask
    ensures Utf8Len(uri) <= 10 ==> r == uri
  {
    if uri == "" then ""
    else if Utf8Len(uri) > 10 then Mask
    else uri
  }

  /** Whatever the URI, the log never shows more than fifteen bytes of it,
      and masking the masked text changes nothing. */
  lemma {:induction false} MaskBounded(uri: string)
    ensures Utf8Len(MaskUri(uri)) <= 15
    ensures MaskUri(MaskUri(uri)) == MaskUri(uri)
  {
    assert Utf8Len(Mask) == 15 by { AsciiLen(Mask); }
  }

  lemma {:induction false} AsciiLen(s: string)
    requires forall i :: 0 <= i < |s| ==> s[i] as int < 0x80
    ensures Utf8Len(s) == |s|
  {
    if s != [] {
      AsciiLen(s[1..]);
    }
  }

  /** More than ten characters are always masked, whatever their encoding. */
  lemma LongUriMasked(uri: string)
    requires |uri| > 10
    ensures MaskUri(uri) == Mask
  {
  }
}
