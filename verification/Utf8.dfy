/** UTF-8, as strict encoding and decoding of strings to bytes. */
module Utf8 {
  import opened Common

  function EncodeChar(c: char): (r: Bytes)
    ensures 1 <= |r| <= 4
  {
    var n := c as int;
    if n < 0x80 then [n as byte]
    else if n < 0x800 then [(0xC0 + n / 64) as byte, (0x80 + n % 64) as byte]
    else if n < 0x10000 then
      [(0xE0 + n / 4096) as byte, (0x80 + n / 64 % 64) as byte, (0x80 + n % 64) as byte]
    else
      [(0xF0 + n / 262144) as byte, (0x80 + n / 4096 % 64) as byte,
        (0x80 + n / 64 % 64) as byte, (0x80 + n % 64) as byte]
  }

  function Encode(s: string): Bytes {
    if s == [] then [] else EncodeChar(s[0]) + Encode(s[1..])
  }

  predicate Continues(b: byte) {
    0x80 <= b < 0xC0
  }

  /** The payload of a continuation byte. */
  function Low(b: byte): int {
    b as int - 0x80
  }

  /** How many bytes the character that starts with `b` takes; 0 if none does. */
  function Width(b: byte): nat {
    if b < 0x80 then 1
    else if 0xC2 <= b < 0xE0 then 2
    else if 0xE0 <= b < 0xF0 then 3
    else if 0xF0 <= b < 0xF5 then 4
    else 0
  }

  /** The code point of the first `Width(b[0])` bytes. */
  function CodePoint(b: Bytes): int
    requires b != [] && 1 <= Width(b[0]) <= |b|
  {
    match Width(b[0])
    case 1 => b[0] as int
    case 2 => (b[0] as int - 0xC0) * 64 + Low(b[1])
    case 3 => (b[0] as int - 0xE0) * 4096 + Low(b[1]) * 64 + Low(b[2])
    case _ => (b[0] as int - 0xF0) * 262144 + Low(b[1]) * 4096 + Low(b[2]) * 64 + Low(b[3])
  }

  /** The first character of `b`: complete, continued correctly, of minimal length, and not a surrogate. */
  function DecodeChar(b: Bytes): (r: Option<char>)
    requires b != []
    ensures r.Some? ==> 1 <= Width(b[0]) <= |b|
  {
    var w := Width(b[0]);
    if w == 0 || |b| < w || !(forall i :: 1 <= i < w ==> Continues(b[i])) then None
    else
      var n := CodePoint(b);
      if (w == 3 && n < 0x800) || (w == 4 && n < 0x10000) || 0xD800 <= n < 0xE000 || n < 0 || n >= 0x110000 then None
      else Some(n as char)
  }

  function Decode(b: Bytes): Option<string> {
    if b == [] then Some([])
    else
      var c := DecodeChar(b);
      if c.None? then None
      else
        var rest := Decode(b[Width(b[0])..]);
        if rest.None? then None else Some([c.value] + rest.value)
  }

  lemma DivideTwice(n: nat)
    ensures n / 4096 == n / 64 / 64
    ensures n / 262144 == n / 4096 / 64
  {
    var q, r := n / 4096, n % 4096;
    assert n == 64 * (64 * q + r / 64) + r % 64;
    var p, t := n / 262144, n % 262144;
    assert n == 4096 * (64 * p + t / 4096) + t % 4096;
  }

  lemma BaseSixtyFour(n: nat)
    ensures n == n / 64 * 64 + n % 64
    ensures n == n / 4096 * 4096 + n / 64 % 64 * 64 + n % 64
    ensures n == n / 262144 * 262144 + n / 4096 % 64 * 4096 + n / 64 % 64 * 64 + n % 64
  {
    DivideTwice(n);
    var a, b := n / 64, n / 4096;
    assert n == a * 64 + n % 64;
    assert a == b * 64 + a % 64;
    assert b == n / 262144 * 64 + b % 64;
  }

  lemma CodePointEncoded(c: char)
    ensures var b := EncodeChar(c);
      Width(b[0]) == |b| && CodePoint(b) == c as int && forall i :: 1 <= i < |b| ==> Continues(b[i])
  {
    BaseSixtyFour(c as int);
  }

  /** Bytes after the first character do not matter to it. */
  lemma DecodeCharPrefix(b: Bytes, rest: Bytes)
    requires b != [] && Width(b[0]) == |b|
    ensures DecodeChar(b + rest) == DecodeChar(b)
  {
    assert forall i :: 0 <= i < |b| ==> (b + rest)[i] == b[i];
    assert (b + rest)[0] == b[0];
  }

  lemma DecodeEncodedChar(c: char, rest: Bytes)
    ensures Width(EncodeChar(c)[0]) == |EncodeChar(c)|
    ensures DecodeChar(EncodeChar(c) + rest) == Some(c)
  {
    CodePointEncoded(c);
    DecodeCharPrefix(EncodeChar(c), rest);
    hide CodePoint;
    assert |EncodeChar(c)| == 3 ==> c as int >= 0x800;
    assert |EncodeChar(c)| == 4 ==> c as int >= 0x10000;
  }

  function Prepend(s: string, rest: Option<string>): Option<string> {
    if rest.None? then None else Some(s + rest.value)
  }

  lemma DecodeFirst(c: char, rest: Bytes)
    ensures Decode(EncodeChar(c) + rest) == Prepend([c], Decode(rest))
  {
    DecodeEncodedChar(c, rest);
    assert (EncodeChar(c) + rest)[0] == EncodeChar(c)[0];
    assert (EncodeChar(c) + rest)[|EncodeChar(c)|..] == rest;
  }

  /** Decoding undoes encoding, also in front of further bytes. */
  lemma {:induction false} DecodeAfter(s: string, rest: Bytes)
    ensures Decode(Encode(s) + rest) == Prepend(s, Decode(rest))
  {
    hide EncodeChar, DecodeChar, Decode;
    if s == [] {
      assert Encode(s) + rest == rest;
      assert Decode(rest).Some? ==> s + Decode(rest).value == Decode(rest).value;
    } else {
      assert Encode(s) + rest == EncodeChar(s[0]) + (Encode(s[1..]) + rest);
      DecodeFirst(s[0], Encode(s[1..]) + rest);
      DecodeAfter(s[1..], rest);
      assert Decode(rest).Some? ==> [s[0]] + (s[1..] + Decode(rest).value) == s + Decode(rest).value;
    }
  }

  lemma DecodeEncode(s: string)
    ensures Decode(Encode(s)) == Some(s)
  {
    DecodeAfter(s, []);
    assert Encode(s) + [] == Encode(s) && s + [] == s;
  }

  /**
    The bytes of a character: their number by its code point, the leading byte
    announcing it, six bits of the code point in each continuation byte.
   */
  lemma EncodingIs(c: char)
    ensures var (b, n) := (EncodeChar(c), c as int);
      && (n <= 0x7F ==> b == [n as byte])
      && (0x80 <= n <= 0x7FF ==> |b| == 2 && 0xC2 <= b[0] <= 0xDF && n == Bits(b, 0xC0))
      && (0x800 <= n <= 0xFFFF ==> |b| == 3 && 0xE0 <= b[0] <= 0xEF && n == Bits(b, 0xE0))
      && (0x10000 <= n ==> |b| == 4 && 0xF0 <= b[0] <= 0xF4 && n == Bits(b, 0xF0))
      && forall i :: 1 <= i < |b| ==> 0x80 <= b[i] <= 0xBF
  {
    var (b, n) := (EncodeChar(c), c as int);
    BaseSixtyFour(n);
    BitsOfFew(b, if |b| == 2 then 0xC0 else if |b| == 3 then 0xE0 else 0xF0);
    hide Bits;
  }

  lemma BitsOfFew(b: Bytes, mark: int)
    requires 1 <= |b| <= 4
    ensures |b| == 2 ==> Bits(b, mark) == (b[0] as int - mark) * 64 + Low(b[1])
    ensures |b| == 3 ==> Bits(b, mark) == (b[0] as int - mark) * 4096 + Low(b[1]) * 64 + Low(b[2])
    ensures |b| == 4 ==>
      Bits(b, mark) == (b[0] as int - mark) * 262144 + Low(b[1]) * 4096 + Low(b[2]) * 64 + Low(b[3])
  {
    if |b| > 1 {
      BitsOfFew(b[..|b| - 1], mark);
    }
  }

  /** The number spelled by the payload of a leading byte and by six bits in each byte after it. */
  function Bits(b: Bytes, mark: int): int
    requires b != []
  {
    if |b| == 1 then b[0] as int - mark else Bits(b[..|b| - 1], mark) * 64 + (b[|b| - 1] as int - 0x80)
  }

  lemma SixBits(a: int, b: int)
    requires 0 <= b < 64
    ensures (a * 64 + b) / 64 == a && (a * 64 + b) % 64 == b
  {
  }

  /** A decoded character is written with the very bytes it was read from. */
  lemma DecodedCharEncodes(b: Bytes)
    requires b != [] && DecodeChar(b).Some?
    ensures EncodeChar(DecodeChar(b).value) == b[..Width(b[0])]
  {
    var w, c := Width(b[0]), DecodeChar(b).value;
    var n := CodePoint(b);
    assert c as int == n;
    if w == 1 {
      assert b[..1] == [b[0]];
    } else if w == 2 {
      SixBits(b[0] as int - 0xC0, Low(b[1]));
      assert EncodeChar(c) == [b[0], b[1]] == b[..2];
    } else if w == 3 {
      var hi := (b[0] as int - 0xE0) * 64 + Low(b[1]);
      assert n == hi * 64 + Low(b[2]);
      SixBits(hi, Low(b[2]));
      SixBits(b[0] as int - 0xE0, Low(b[1]));
      DivideTwice(n);
      assert EncodeChar(c) == [b[0], b[1], b[2]] == b[..3];
    } else {
      var top := (b[0] as int - 0xF0) * 64 + Low(b[1]);
      var hi := top * 64 + Low(b[2]);
      assert n == hi * 64 + Low(b[3]);
      SixBits(hi, Low(b[3]));
      SixBits(top, Low(b[2]));
      SixBits(b[0] as int - 0xF0, Low(b[1]));
      DivideTwice(n);
      assert EncodeChar(c) == [b[0], b[1], b[2], b[3]] == b[..4];
    }
  }

  lemma DecodeStep(b: Bytes)
    requires b != [] && Decode(b).Some?
    ensures DecodeChar(b).Some? && Decode(b[Width(b[0])..]).Some?
    ensures Decode(b).value == [DecodeChar(b).value] + Decode(b[Width(b[0])..]).value
  {
    hide DecodeChar;
  }

  lemma EncodeStep(c: char, s: string)
    ensures Encode([c] + s) == EncodeChar(c) + Encode(s)
  {
    hide EncodeChar;
    assert ([c] + s)[1..] == s;
  }

  /** Encoding undoes decoding: nothing but the encoding of a text can be decoded. */
  lemma {:induction false} EncodeDecode(b: Bytes)
    ensures Decode(b).Some? ==> Encode(Decode(b).value) == b
    decreases |b|
  {
    if b == [] {
      assert Decode(b) == Some([]);
    } else if Decode(b).Some? {
      DecodeStep(b);
      DecodedCharEncodes(b);
      var w, c := Width(b[0]), DecodeChar(b).value;
      var rest := Decode(b[w..]).value;
      hide *;
      EncodeDecode(b[w..]);
      assert Encode(rest) == b[w..];
      EncodeStep(c, rest);
      CutAndJoin(b, w);
    }
  }

  lemma CutAndJoin(b: Bytes, k: nat)
    requires k <= |b|
    ensures b[..k] + b[k..] == b
  {
  }

  /** So the bytes that can be decoded are exactly those that encoding produces. */
  lemma DecodesIff(b: Bytes, s: string)
    ensures Decode(b) == Some(s) <==> b == Encode(s)
  {
    DecodeEncode(s);
    EncodeDecode(b);
  }

  /** A cut inside a character cannot be decoded. */
  lemma CutChar(s: string, c: char, k: nat)
    requires 0 < k < |EncodeChar(c)|
    ensures Decode(Encode(s) + EncodeChar(c)[..k]) == None
  {
    DecodeEncodedChar(c, []);
    DecodeAfter(s, EncodeChar(c)[..k]);
  }

  /** What is left of a cut text, if it can be decoded at all, is a beginning of that text. */
  lemma {:induction false} DecodeCut(s: string, k: nat)
    requires k <= |Encode(s)| && Decode(Encode(s)[..k]).Some?
    ensures exists j :: 0 <= j <= |s| && Decode(Encode(s)[..k]) == Some(s[..j]) && Encode(s)[..k] == Encode(s[..j])
  {
    if k == 0 {
      assert s[..0] == [] && Decode(Encode(s)[..0]) == Some([]) && Encode(s)[..0] == Encode(s[..0]);
    } else {
      var c := s[0];
      var n := |EncodeChar(c)|;
      if k < n {
        assert Encode(s)[..k] == Encode([]) + EncodeChar(c)[..k];
        CutChar([], c, k);
      }
      assert Encode(s)[..k] == EncodeChar(c) + Encode(s[1..])[..k - n];
      hide *;
      DecodeFirst(c, Encode(s[1..])[..k - n]);
      PrependIs([c], Decode(Encode(s[1..])[..k - n]));
      DecodeCut(s[1..], k - n);
      var j :| 0 <= j <= |s[1..]| && Decode(Encode(s[1..])[..k - n]) == Some(s[1..][..j]) &&
               Encode(s[1..])[..k - n] == Encode(s[1..][..j]);
      OneMoreChar(s, j);
    }
  }

  lemma PrependIs(s: string, rest: Option<string>)
    ensures Prepend(s, rest) == if rest.None? then None else Some(s + rest.value)
  {
  }

  lemma OneMoreChar(s: string, j: nat)
    requires j < |s|
    ensures s[..j + 1] == [s[0]] + s[1..][..j]
    ensures Encode(s[..j + 1]) == EncodeChar(s[0]) + Encode(s[1..][..j])
  {
    hide EncodeChar;
    assert s[..j + 1][1..] == s[1..][..j];
  }

  predicate Ascii(s: string) {
    forall i :: 0 <= i < |s| ==> s[i] < 128 as char
  }

  lemma EncodeAppend(s: string, t: string)
    ensures Encode(s + t) == Encode(s) + Encode(t)
  {
    if s == [] {
      assert s + t == t;
    } else {
      assert (s + t)[1..] == s[1..] + t;
      EncodeAppend(s[1..], t);
    }
  }

  lemma LongerIsLonger(s: string, b: nat, a: nat)
    requires b < a <= |s|
    ensures |Encode(s[..b])| < |Encode(s[..a])|
  {
    assert s[..a] == s[..b] + s[b..a];
    EncodeAppend(s[..b], s[b..a]);
  }

  lemma EncodeAscii(s: string)
    requires Ascii(s)
    ensures |Encode(s)| == |s|
    ensures forall k :: 0 <= k <= |s| ==> Encode(s)[..k] == Encode(s[..k])
  {
    if s != [] {
      EncodeAscii(s[1..]);
      forall k | 0 < k <= |s| ensures Encode(s)[..k] == Encode(s[..k]) {
        assert s[..k][1..] == s[1..][..k - 1];
        assert Encode(s)[..k] == EncodeChar(s[0]) + Encode(s[1..])[..k - 1];
      }
    }
  }
}
