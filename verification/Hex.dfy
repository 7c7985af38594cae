/** Two hexadecimal digits per byte, as identifiers and key fingerprints are written. */
module Hex {
  import opened Vocabulary

  function Digit(n: int): (c: char)
    requires 0 <= n < 16
    ensures LowerNibble(c) == Some(n)
  {
    if n < 10 then ('0' as int + n) as char else ('a' as int + n - 10) as char
  }

  /** Lower-case digits only, as fingerprints require. */
  function LowerNibble(c: char): (n: Option<int>)
    ensures n.Some? ==> 0 <= n.value < 16
  {
    if '0' <= c <= '9' then Some(c as int - '0' as int)
    else if 'a' <= c <= 'f' then Some(c as int - 'a' as int + 10)
    else None
  }

  /** Either case, as identifiers allow. */
  function Nibble(c: char): (n: Option<int>)
    ensures n.Some? ==> 0 <= n.value < 16
  {
    if 'A' <= c <= 'F' then Some(c as int - 'A' as int + 10) else LowerNibble(c)
  }

  function Pair(b: Byte): (s: string)
    ensures |s| == 2
  {
    [Digit(b / 16), Digit(b % 16)]
  }

  function Encode(bytes: seq<Byte>): (s: string)
    ensures |s| == 2 * |bytes|
  {
    if bytes == [] then "" else Encode(bytes[..|bytes| - 1]) + Pair(bytes[|bytes| - 1])
  }

  function Value(c: char, lower: bool): (n: Option<int>)
    ensures n.Some? ==> 0 <= n.value < 16
  {
    if lower then LowerNibble(c) else Nibble(c)
  }

  function ReadPair(high: char, low: char, lower: bool): (b: Option<Byte>) {
    var h, l := Value(high, lower), Value(low, lower);
    if h.Some? && l.Some? then Some(16 * h.value + l.value) else None
  }

  lemma PairRoundTrip(b: Byte, lower: bool)
    ensures ReadPair(Pair(b)[0], Pair(b)[1], lower) == Some(b)
  {
  }

  lemma OneSpelling(high: char, low: char)
    requires ReadPair(high, low, true).Some?
    ensures Pair(ReadPair(high, low, true).value) == [high, low]
  {
    var h, l := LowerNibble(high).value, LowerNibble(low).value;
    assert (16 * h + l) / 16 == h && (16 * h + l) % 16 == l;
  }

  /** Reads two digits per byte; anything else is refused. */
  function Decode(s: string, lower: bool): (bytes: Option<seq<Byte>>)
    ensures bytes.Some? ==> |s| == 2 * |bytes.value|
  {
    if s == "" then Some([])
    else if |s| == 1 then None
    else
      var n := |s| - 2;
      var front, last := Decode(s[..n], lower), ReadPair(s[n], s[n + 1], lower);
      if front.Some? && last.Some? then Some(front.value + [last.value]) else None
  }

  lemma DecodeLast(front: string, pair: string, lower: bool)
    requires |pair| == 2
    ensures Decode(front + pair, lower) ==
            if Decode(front, lower).Some? && ReadPair(pair[0], pair[1], lower).Some?
            then Some(Decode(front, lower).value + [ReadPair(pair[0], pair[1], lower).value]) else None
  {
    var s := front + pair;
    assert s[..|s| - 2] == front && s[|s| - 2] == pair[0] && s[|s| - 1] == pair[1];
  }

  lemma DecodeOneMore(front: string, bytes: seq<Byte>, b: Byte, lower: bool)
    requires Decode(front, lower) == Some(bytes)
    ensures Decode(front + Pair(b), lower) == Some(bytes + [b])
  {
    PairRoundTrip(b, lower);
    DecodeLast(front, Pair(b), lower);
  }

  lemma DecodeWhole(whole: string, front: string, pair: string, bytes: seq<Byte>, b: Byte, lower: bool)
    requires bytes != [] && b == bytes[|bytes| - 1]
    requires whole == front + pair && pair == Pair(b) && Decode(front, lower) == Some(bytes[..|bytes| - 1])
    ensures Decode(whole, lower) == Some(bytes)
  {
    DecodeOneMore(front, bytes[..|bytes| - 1], b, lower);
    assert bytes[..|bytes| - 1] + [b] == bytes;
  }

  lemma {:induction false} DecodeEncode(bytes: seq<Byte>, lower: bool)
    ensures Decode(Encode(bytes), lower) == Some(bytes)
  {
    if bytes != [] {
      var front, b := bytes[..|bytes| - 1], bytes[|bytes| - 1];
      DecodeEncode(front, lower);
      DecodeWhole(Encode(bytes), Encode(front), Pair(b), bytes, b, lower);
    }
  }

  /** A strict reader accepts one spelling only: what it read is written back unchanged. */
  lemma {:induction false} EncodeDecode(s: string)
    requires Decode(s, true).Some?
    ensures Encode(Decode(s, true).value) == s
  {
    if s != "" {
      var front, pair := s[..|s| - 2], s[|s| - 2..];
      assert front + pair == s;
      DecodeLast(front, pair, true);
      EncodeDecode(front);
      OneSpelling(pair[0], pair[1]);
      var bytes := Decode(s, true).value;
      assert bytes[..|bytes| - 1] == Decode(front, true).value;
      assert pair == [pair[0], pair[1]];
    }
  }

  lemma {:induction false} OnlyDigits(bytes: seq<Byte>, c: char)
    requires LowerNibble(c).None?
    ensures c !in Encode(bytes)
  {
    if bytes != [] {
      OnlyDigits(bytes[..|bytes| - 1], c);
      assert c !in Pair(bytes[|bytes| - 1]);
    }
  }
}
