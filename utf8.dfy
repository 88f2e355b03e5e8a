/**
 * UTF-8 as section 3 of RFC 3629 defines it: the encoding of a string of
 * Unicode scalar values (Dafny's `char`) into bytes, and the strict decoder
 * that Python's `bytes.decode('utf-8')` is (no overlong forms, no surrogates,
 * nothing above U+10FFFF; a truncated sequence is an error).
 */
module Utf8 {
  import opened Wrappers

  type Byte = b: int | 0 <= b < 256

  /** The one to four bytes of a character (the table in section 3 of RFC 3629). */
  function EncodeChar(c: char): (r: seq<Byte>)
    ensures 1 <= |r| <= 4
  {
    var n := c as int;
    if n < 0x80 then [n]
    else if n < 0x800 then [0xC0 + n / 64, 0x80 + n % 64]
    else if n < 0x10000 then [0xE0 + n / 4096, 0x80 + n / 64 % 64, 0x80 + n % 64]
    else [0xF0 + n / 262144, 0x80 + n / 4096 % 64, 0x80 + n / 64 % 64, 0x80 + n % 64]
  }

  /** `s.encode('utf-8')`. */
  function Encode(s: string): seq<Byte> {
    if s == [] then [] else EncodeChar(s[0]) + Encode(s[1..])
  }

  predicate IsContinuation(b: Byte) {
    0x80 <= b <= 0xBF
  }

  /**
   * The character the bytes start with and how many bytes it takes, or `None`
   * when they do not start with a well-formed sequence (the syntax in section 4
   * of RFC 3629), in particular when the sequence is cut short.
   */
  function DecodeFirst(b: seq<Byte>): (r: Option<(char, nat)>)
    requires b != []
    ensures r.Some? ==> 1 <= r.value.1 <= |b| && r.value.1 <= 4
  {
    var b0: int := b[0];
    if b0 < 0x80 then Some((b0 as char, 1))
    else if 0xC2 <= b0 <= 0xDF then
      if |b| >= 2 && IsContinuation(b[1]) then
        Some((((b0 - 0xC0) * 64 + (b[1] as int - 0x80)) as char, 2))
      else None
    else if 0xE0 <= b0 <= 0xEF then
      var lo := if b0 == 0xE0 then 0xA0 else 0x80;
      var hi := if b0 == 0xED then 0x9F else 0xBF;
      if |b| >= 3 && lo <= b[1] <= hi && IsContinuation(b[2]) then
        Some((((b0 - 0xE0) * 4096 + (b[1] as int - 0x80) * 64 + (b[2] as int - 0x80)) as char, 3))
      else None
    else if 0xF0 <= b0 <= 0xF4 then
      var lo := if b0 == 0xF0 then 0x90 else 0x80;
      var hi := if b0 == 0xF4 then 0x8F else 0xBF;
      if |b| >= 4 && lo <= b[1] <= hi && IsContinuation(b[2]) && IsContinuation(b[3]) then
        Some((((b0 - 0xF0) * 262144 + (b[1] as int - 0x80) * 4096 + (b[2] as int - 0x80) * 64 + (b[3] as int - 0x80)) as char, 4))
      else None
    else None
  }

  /** `b.decode('utf-8')`: the string, or `None` where Python raises `UnicodeDecodeError`. */
  function Decode(b: seq<Byte>): Option<string>
    decreases |b|
  {
    if b == [] then Some([])
    else match DecodeFirst(b)
      case None => None
      case Some((c, n)) =>
        match Decode(b[n..])
        case None => None
        case Some(s) => Some([c] + s)
  }

  /* ---------------- Encoding and decoding one character ---------------- */

  lemma DecodeFirstTwo(c: char, rest: seq<Byte>)
    requires 0x80 <= c as int < 0x800
    ensures DecodeFirst(EncodeChar(c) + rest) == Some((c, 2))
  {
    var n := c as int;
    var b := EncodeChar(c) + rest;
    assert b[0] == 0xC0 + n / 64 && b[1] == 0x80 + n % 64;
  }

  lemma DecodeFirstThree(c: char, rest: seq<Byte>)
    requires 0x800 <= c as int < 0x10000
    ensures DecodeFirst(EncodeChar(c) + rest) == Some((c, 3))
  {
    var n := c as int;
    var hi, mid, lo := n / 4096, n / 64 % 64, n % 64;
    assert n / 64 == hi * 64 + mid;
    assert n == hi * 4096 + mid * 64 + lo;
    var b := EncodeChar(c) + rest;
    assert b[0] == 0xE0 + hi && b[1] == 0x80 + mid && b[2] == 0x80 + lo;
  }

  lemma DecodeFirstFour(c: char, rest: seq<Byte>)
    requires 0x10000 <= c as int
    ensures DecodeFirst(EncodeChar(c) + rest) == Some((c, 4))
  {
    var n := c as int;
    var top, hi, mid, lo := n / 262144, n / 4096 % 64, n / 64 % 64, n % 64;
    assert n / 4096 == top * 64 + hi;
    assert n / 64 == (n / 4096) * 64 + mid;
    assert n == top * 262144 + hi * 4096 + mid * 64 + lo;
    var b := EncodeChar(c) + rest;
    assert b[0] == 0xF0 + top && b[1] == 0x80 + hi && b[2] == 0x80 + mid && b[3] == 0x80 + lo;
  }

  /** A character's bytes, whatever follows them, decode to that character. */
  lemma DecodeFirstEncoded(c: char, rest: seq<Byte>)
    ensures DecodeFirst(EncodeChar(c) + rest) == Some((c, |EncodeChar(c)|))
  {
    var n := c as int;
    if n < 0x80 {
    } else if n < 0x800 {
      DecodeFirstTwo(c, rest);
    } else if n < 0x10000 {
      DecodeFirstThree(c, rest);
    } else {
      DecodeFirstFour(c, rest);
    }
  }

  /** A character's bytes cut short do not decode: the lead byte announces more. */
  lemma DecodeFirstCut(c: char, k: nat)
    requires 0 < k < |EncodeChar(c)|
    ensures DecodeFirst(EncodeChar(c)[..k]) == None
  {
    var n := c as int;
    var b := EncodeChar(c)[..k];
    if n < 0x800 {
      assert 0xC2 <= b[0] <= 0xDF;
    } else if n < 0x10000 {
      assert 0xE0 <= b[0] <= 0xEF;
    } else {
      assert 0xF0 <= b[0] <= 0xF4;
    }
  }

  /* ---------------- Strings ---------------- */

  lemma {:induction false} EncodeAppend(a: string, b: string)
    ensures Encode(a + b) == Encode(a) + Encode(b)
  {
    if a == [] {
      assert a + b == b;
    } else {
      assert (a + b)[0] == a[0] && (a + b)[1..] == a[1..] + b;
      EncodeAppend(a[1..], b);
    }
  }

  /** Every string's encoding decodes back to it. */
  lemma {:induction false} DecodeEncode(s: string)
    ensures Decode(Encode(s)) == Some(s)
  {
    if s != [] {
      var b := Encode(s);
      DecodeFirstEncoded(s[0], Encode(s[1..]));
      assert b[|EncodeChar(s[0])|..] == Encode(s[1..]);
      DecodeEncode(s[1..]);
      assert [s[0]] + s[1..] == s;
    }
  }

  /** The number of bytes of the first `j` characters. */
  function Width(s: string, j: nat): nat
    requires j <= |s|
  {
    |Encode(s[..j])|
  }

  /** The bytes of the first `j` characters are the first bytes of the whole encoding. */
  lemma WidthPrefix(s: string, j: nat)
    requires j <= |s|
    ensures Width(s, j) <= |Encode(s)| && Encode(s)[..Width(s, j)] == Encode(s[..j])
    ensures j == |s| ==> Width(s, j) == |Encode(s)|
  {
    EncodeAppend(s[..j], s[j..]);
    assert s[..j] + s[j..] == s;
  }

  lemma WidthNext(s: string, j: nat)
    requires s != [] && j < |s|
    ensures Width(s, j + 1) == |EncodeChar(s[0])| + Width(s[1..], j)
  {
    assert s[..j + 1][0] == s[0];
    assert s[..j + 1][1..] == s[1..][..j];
  }

  /**
   * The number of leading characters whose bytes fit in `k` bytes; the
   * characters are taken whole or not at all.
   */
  function FitCount(s: string, k: nat): (j: nat)
    ensures j <= |s|
  {
    if s == [] || |EncodeChar(s[0])| > k then 0
    else 1 + FitCount(s[1..], k - |EncodeChar(s[0])|)
  }

  /** `FitCount` is the longest prefix that fits: it fits, and one more character does not. */
  lemma {:induction false} FitCountLongest(s: string, k: nat)
    ensures Width(s, FitCount(s, k)) <= k
    ensures FitCount(s, k) < |s| ==> Width(s, FitCount(s, k) + 1) > k
  {
    if s != [] {
      var m := |EncodeChar(s[0])|;
      if m > k {
        WidthNext(s, 0);
      } else {
        var j := FitCount(s[1..], k - m);
        FitCountLongest(s[1..], k - m);
        WidthNext(s, j);
        if j + 1 < |s| {
          WidthNext(s, j + 1);
        }
      }
    }
  }

  /** Any prefix that fits and cannot grow is the one `FitCount` finds. */
  lemma {:induction false} FitCountUnique(s: string, k: nat, j: nat)
    requires j <= |s| && Width(s, j) <= k
    requires j < |s| ==> Width(s, j + 1) > k
    ensures FitCount(s, k) == j
  {
    if s != [] {
      var m := |EncodeChar(s[0])|;
      if j == 0 {
        WidthNext(s, 0);
      } else {
        WidthNext(s, j - 1);
        if j < |s| {
          WidthNext(s, j);
        }
        FitCountUnique(s[1..], k - m, j - 1);
      }
    }
  }

  /**
   * The first `k` bytes of a string's encoding decode exactly when they end
   * on a character boundary, and then to the characters before it.
   */
  lemma {:induction false} DecodePrefix(s: string, k: nat)
    requires k <= |Encode(s)|
    ensures Decode(Encode(s)[..k]) ==
              if Width(s, FitCount(s, k)) == k then Some(s[..FitCount(s, k)]) else None
  {
    if s == [] || k == 0 {
      assert Encode(s)[..k] == [];
    } else {
      var c, m := s[0], |EncodeChar(s[0])|;
      var b := Encode(s)[..k];
      if k < m {
        assert b == EncodeChar(c)[..k];
        DecodeFirstCut(c, k);
        assert Width(s, 0) == 0;
      } else {
        var tail := Encode(s[1..])[..k - m];
        assert b == EncodeChar(c) + tail;
        DecodeFirstEncoded(c, tail);
        assert b[m..] == tail;
        DecodePrefix(s[1..], k - m);
        var j := FitCount(s[1..], k - m);
        WidthNext(s, j);
        assert s[..j + 1] == [c] + s[1..][..j];
      }
    }
  }
}
