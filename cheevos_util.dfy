/**
 * Small helpers of the achievement engine: the djb2 string hash used to
 * recognise JSON keys and ROM extensions, the URL encoder applied to the
 * credentials sent to the server, and the power-of-two rounding used when
 * sizing hash buffers.
 */
module CheevosUtil {
  import opened CheevosTypes

  // ---------------------------------------------------------------------
  // djb2

  /** The byte a character stands for once cast to `unsigned char`. */
  function Byte(c: char): (b: nat)
    ensures b < 256
  {
    (c as int) % 256
  }

  /** djb2 as the source computes it: 5381, then `hash * 33 + byte` in 32-bit words. */
  function Djb2(s: seq<char>): u32
  {
    if s == [] then 5381 else (Djb2(s[..|s| - 1]) * 33 + Byte(s[|s| - 1])) % U32_MODULUS
  }

  function Pow33(n: nat): (r: nat)
    ensures r >= 1
  {
    if n == 0 then 1 else 33 * Pow33(n - 1)
  }

  /** Sum of byte(s[i]) * 33^(|s|-1-i), computed without any wrap-around. */
  function Weighted(s: seq<char>): nat
  {
    if s == [] then 0 else Byte(s[0]) * Pow33(|s| - 1) + Weighted(s[1..])
  }

  lemma {:induction false} WeightedSnoc(s: seq<char>, c: char)
    ensures Weighted(s + [c]) == Weighted(s) * 33 + Byte(c)
    decreases |s|
  {
    if s == [] {
      assert Weighted([c]) == Byte(c) * Pow33(0) + Weighted([]);
    } else {
      assert (s + [c])[0] == s[0] && (s + [c])[1..] == s[1..] + [c];
      WeightedSnoc(s[1..], c);
      var b, p := Byte(s[0]), Pow33(|s| - 1);
      assert Pow33(|s|) == 33 * p;
      assert b * (33 * p) == (b * p) * 33 by {
        MulAssoc(b, 33, p);
      }
      assert Weighted(s + [c]) == b * (33 * p) + (Weighted(s[1..]) * 33 + Byte(c));
    }
  }

  lemma MulAssoc(a: int, k: int, p: int)
    ensures a * (k * p) == (a * p) * k
  {
  }

  /**
   * The step-by-step 32-bit hash equals the textbook polynomial hash
   * 5381 * 33^n + sum(byte(s[i]) * 33^(n-1-i)) reduced once, modulo 2^32.
   */
  lemma {:induction false} Djb2IsPolynomial(s: seq<char>)
    ensures Djb2(s) == (5381 * Pow33(|s|) + Weighted(s)) % U32_MODULUS
    decreases |s|
  {
    if s != [] {
      var init, c := s[..|s| - 1], s[|s| - 1];
      assert s == init + [c];
      Djb2IsPolynomial(init);
      WeightedSnoc(init, c);
      var x := 5381 * Pow33(|init|) + Weighted(init);
      ModMulAdd(x, 33, Byte(c));
      assert 5381 * Pow33(|s|) == 5381 * Pow33(|init|) * 33 by {
        MulAssoc(5381, 33, Pow33(|init|));
      }
      assert x * 33 + Byte(c) == 5381 * Pow33(|s|) + Weighted(s);
    }
  }

  lemma ModMulAdd(x: int, k: int, b: int)
    ensures ((x % U32_MODULUS) * k + b) % U32_MODULUS == (x * k + b) % U32_MODULUS
  {
    var q := x / U32_MODULUS;
    assert x == q * U32_MODULUS + x % U32_MODULUS;
    assert x * k + b == (q * k) * U32_MODULUS + ((x % U32_MODULUS) * k + b);
  }

  /** One step of the hash: appending a character. */
  lemma Djb2Snoc(s: seq<char>, c: char)
    ensures Djb2(s + [c]) == Wrap32(Djb2(s) * 33 + Byte(c))
  {
    assert (s + [c])[..|s|] == s;
  }

  /**
   * The constant the loader compares achievement ids with is the hash of the
   * key "ID"; two of the ROM-extension constants are those of "md" and "gg".
   */
  lemma KnownHashes()
    ensures Djb2("ID") == 0x005973f2
    ensures Djb2("md") == 0x005978b6 && Djb2("gg") == 0x005977f3
  {
  }

  /** The loop of `cheevos_djb2`. */
  method ComputeDjb2(s: seq<char>) returns (hash: u32)
    ensures hash == Djb2(s)
    ensures hash == (5381 * Pow33(|s|) + Weighted(s)) % U32_MODULUS
  {
    hash := 5381;
    var i := 0;
    while i < |s|
      invariant 0 <= i <= |s|
      invariant hash == Djb2(s[..i])
    {
      assert s[..i + 1][..i] == s[..i];
      hash := Wrap32(hash * 33 + Byte(s[i]));
      i := i + 1;
    }
    assert s[..i] == s;
    Djb2IsPolynomial(s);
  }

  // ---------------------------------------------------------------------
  // url_encode

  /** Characters copied unchanged: letters, digits and `- _ . ~`. */
  predicate Unreserved(c: char)
  {
    ('A' <= c <= 'Z') || ('a' <= c <= 'z') || ('0' <= c <= '9') || c == '-' || c == '_' || c == '.' || c == '~'
  }

  function HexDigit(n: nat): (d: char)
    requires n < 16
    ensures '0' <= d <= '9' || 'a' <= d <= 'f'
  {
    if n < 10 then ('0' as int + n) as char else ('a' as int + n - 10) as char
  }

  function HexValue(d: char): nat
  {
    if '0' <= d <= '9' then d as int - '0' as int
    else if 'a' <= d <= 'f' then d as int - 'a' as int + 10
    else if 'A' <= d <= 'F' then d as int - 'A' as int + 10
    else 0
  }

  /** What one input character becomes: itself, or `%` and two lower-case hex digits. */
  function Escape(c: char): (e: seq<char>)
    ensures |e| == if Unreserved(c) then 1 else 3
  {
    if Unreserved(c) then [c] else ['%', HexDigit(Byte(c) / 16), HexDigit(Byte(c) % 16)]
  }

  /** The encoding of a whole string when the buffer is large enough. */
  function EncodeAll(s: seq<char>): seq<char>
  {
    if s == [] then [] else Escape(s[0]) + EncodeAll(s[1..])
  }

  /**
   * What `url_encode` leaves in the buffer, stated the way its loop runs:
   * `acc` has been written, input index `p` is next and `room` bytes are left.
   * A character is encoded only when its encoding and the final NUL still
   * fit; the first one that does not fit ends the output rather than be split.
   */
  function FitFrom(s: seq<char>, p: nat, room: nat, acc: seq<char>): seq<char>
    decreases |s| - p
  {
    if p >= |s| || |Escape(s[p])| + 1 > room then acc
    else FitFrom(s, p + 1, room - |Escape(s[p])|, acc + Escape(s[p]))
  }

  /** The string `url_encode` writes (before its NUL) into a buffer of `room` bytes. */
  function EncodeFit(s: seq<char>, room: nat): seq<char>
  {
    FitFrom(s, 0, room, [])
  }

  /** Percent-decoding, the inverse the server applies. */
  function PercentDecode(s: seq<char>): seq<char>
  {
    if s == [] then []
    else if s[0] == '%' && |s| >= 3 then [(HexValue(s[1]) * 16 + HexValue(s[2])) as char] + PercentDecode(s[3..])
    else [s[0]] + PercentDecode(s[1..])
  }

  /** A C string of bytes: no NUL inside, every character below 256. */
  predicate IsByteString(s: seq<char>)
  {
    forall i :: 0 <= i < |s| ==> 0 < s[i] as int < 256
  }

  lemma {:induction false} FitFromBound(s: seq<char>, p: nat, room: nat, acc: seq<char>)
    requires room >= 1
    ensures |FitFrom(s, p, room, acc)| < |acc| + room
    decreases |s| - p
  {
    if p < |s| && |Escape(s[p])| + 1 <= room {
      FitFromBound(s, p + 1, room - |Escape(s[p])|, acc + Escape(s[p]));
    }
  }

  /** The output and its NUL always fit in the buffer. */
  lemma EncodeFitBound(s: seq<char>, room: nat)
    requires room >= 1
    ensures |EncodeFit(s, room)| < room
  {
    FitFromBound(s, 0, room, []);
  }

  /** How many input characters the loop of `url_encode` consumes from index `p`. */
  function Consumed(s: seq<char>, p: nat, room: nat): (k: nat)
    requires p <= |s|
    ensures p <= k <= |s|
    decreases |s| - p
  {
    if p == |s| || |Escape(s[p])| + 1 > room then p
    else Consumed(s, p + 1, room - |Escape(s[p])|)
  }

  lemma {:induction false} EncodeAllSnoc(s: seq<char>, c: char)
    ensures EncodeAll(s + [c]) == EncodeAll(s) + Escape(c)
    decreases |s|
  {
    if s == [] {
      assert [c][1..] == [];
    } else {
      assert (s + [c])[0] == s[0] && (s + [c])[1..] == s[1..] + [c];
      EncodeAllSnoc(s[1..], c);
    }
  }

  lemma {:induction false} FitFromPrefix(s: seq<char>, p: nat, room: nat, size: nat)
    requires p <= |s| && room + |EncodeAll(s[..p])| == size
    ensures var k := Consumed(s, p, room);
            FitFrom(s, p, room, EncodeAll(s[..p])) == EncodeAll(s[..k]) &&
            (k == |s| || |EncodeAll(s[..k])| + |Escape(s[k])| + 1 > size)
    decreases |s| - p
  {
    if p < |s| && |Escape(s[p])| + 1 <= room {
      assert s[..p + 1] == s[..p] + [s[p]];
      EncodeAllSnoc(s[..p], s[p]);
      FitFromPrefix(s, p + 1, room - |Escape(s[p])|, size);
    }
  }

  /**
   * The truncated output is the full encoding of the first `Consumed`
   * characters, and no longer prefix fits: the next character's encoding
   * and the NUL would overflow the buffer.
   */
  lemma EncodeFitIsPrefix(s: seq<char>, room: nat)
    ensures var k := Consumed(s, 0, room);
            EncodeFit(s, room) == EncodeAll(s[..k]) &&
            (k == |s| || |EncodeAll(s[..k])| + |Escape(s[k])| + 1 > room)
  {
    assert s[..0] == [];
    FitFromPrefix(s, 0, room, room);
  }

  lemma {:induction false} FitFromWhole(s: seq<char>, p: nat, room: nat, acc: seq<char>)
    requires p <= |s| && |EncodeAll(s[p..])| < room
    ensures FitFrom(s, p, room, acc) == acc + EncodeAll(s[p..])
    decreases |s| - p
  {
    if p == |s| {
      assert s[p..] == [];
    } else {
      assert s[p..][0] == s[p] && s[p..][1..] == s[p + 1..];
      var e := Escape(s[p]);
      FitFromWhole(s, p + 1, room - |e|, acc + e);
    }
  }

  /** A buffer large enough for the whole encoding receives all of it. */
  lemma EncodeFitWhole(s: seq<char>, room: nat)
    requires |EncodeAll(s)| < room
    ensures EncodeFit(s, room) == EncodeAll(s)
  {
    assert s[0..] == s;
    FitFromWhole(s, 0, room, []);
  }

  lemma HexRoundTrip(n: nat)
    requires n < 16
    ensures HexValue(HexDigit(n)) == n
  {
  }

  /** Percent-decoding undoes the full encoding of any byte string. */
  lemma {:induction false} DecodeEncode(s: seq<char>)
    requires IsByteString(s)
    ensures PercentDecode(EncodeAll(s)) == s
    decreases |s|
  {
    if s != [] {
      var c, rest := s[0], EncodeAll(s[1..]);
      assert IsByteString(s[1..]) by {
        forall i | 0 <= i < |s[1..]| ensures 0 < s[1..][i] as int < 256 {
          assert s[1..][i] == s[i + 1];
        }
      }
      DecodeEncode(s[1..]);
      assert EncodeAll(s) == Escape(c) + rest;
      if Unreserved(c) {
        assert c != '%';
        assert (Escape(c) + rest)[0] == c && (Escape(c) + rest)[1..] == rest;
      } else {
        var b := Byte(c);
        assert b == c as int by { assert 0 < s[0] as int < 256; }
        var hi, lo := HexDigit(b / 16), HexDigit(b % 16);
        HexRoundTrip(b / 16);
        HexRoundTrip(b % 16);
        var e := ['%', hi, lo] + rest;
        assert e[0] == '%' && e[1] == hi && e[2] == lo && e[3..] == rest;
        assert PercentDecode(e) == [(HexValue(hi) * 16 + HexValue(lo)) as char] + PercentDecode(rest);
      }
    }
  }

  /** Decoding what fits in the buffer gives back the consumed prefix of the input. */
  lemma DecodeTruncated(s: seq<char>, room: nat)
    requires IsByteString(s)
    ensures PercentDecode(EncodeFit(s, room)) == s[..Consumed(s, 0, room)]
  {
    var k := Consumed(s, 0, room);
    EncodeFitIsPrefix(s, room);
    assert IsByteString(s[..k]) by {
      forall i | 0 <= i < k ensures 0 < s[..k][i] as int < 256 {
        assert s[..k][i] == s[i];
      }
    }
    DecodeEncode(s[..k]);
  }

  /**
   * Writes the encoding of one character at `q`: the character itself, or the
   * three characters `sprintf(encoded, "%%%02x", (uint8_t)c)` prints.  The NUL
   * sprintf adds lands on the slot that the next write or the final
   * terminator overwrites, so it is not written separately here.
   */
  method PutEncoded(encoded: array<char>, q: nat, c: char)
    requires q + |Escape(c)| < encoded.Length
    modifies encoded
    ensures encoded[..] == old(encoded[..])[..q] + Escape(c) + old(encoded[..])[q + |Escape(c)|..]
  {
    if Unreserved(c) {
      encoded[q] := c;
    } else {
      var b := Byte(c);
      encoded[q] := '%';
      encoded[q + 1] := HexDigit(b / 16);
      encoded[q + 2] := HexDigit(b % 16);
    }
  }

  /** Overwriting the slots just after a written prefix extends that prefix. */
  lemma Splice(done: seq<char>, e: seq<char>, rest: seq<char>)
    requires |e| <= |rest|
    ensures (done + rest)[..|done|] + e + (done + rest)[|done| + |e|..] == (done + e) + rest[|e|..]
  {
    assert (done + rest)[..|done|] == done;
    assert (done + rest)[|done| + |e|..] == rest[|e|..];
  }

  /**
   * The loop of `url_encode`: copies or escapes characters while they fit
   * and returns the index where the terminating NUL goes.
   */
  method EncodeLoop(str: seq<char>, encoded: array<char>) returns (q: nat, ghost out: seq<char>)
    requires encoded.Length >= 1
    modifies encoded
    ensures q < encoded.Length && |out| == q && out == EncodeFit(str, encoded.Length)
    ensures encoded[..] == out + old(encoded[..])[q..]
  {
    var p, len := 0, encoded.Length;
    q, out := 0, [];
    while p < |str|
      invariant p <= |str| && 1 <= len && q + len == encoded.Length && |out| == q
      invariant EncodeFit(str, encoded.Length) == FitFrom(str, p, len, out)
      invariant encoded[..] == out + old(encoded[..])[q..]
    {
      var c := str[p];
      // An unreserved character needs 2 bytes left, an escape 4 (both count the NUL).
      if |Escape(c)| + 1 > len {
        break;
      }
      assert FitFrom(str, p, len, out) == FitFrom(str, p + 1, len - |Escape(c)|, out + Escape(c));
      Splice(out, Escape(c), old(encoded[..])[q..]);
      PutEncoded(encoded, q, c);
      assert old(encoded[..])[q..][|Escape(c)|..] == old(encoded[..])[q + |Escape(c)|..];
      out := out + Escape(c);
      q, len := q + |Escape(c)|, len - |Escape(c)|;
      p := p + 1;
    }
  }

  /**
   * `url_encode(str, encoded, len)` with `len == encoded.Length`: the buffer
   * receives the encoding of the longest prefix that fits, then a NUL;
   * nothing after that NUL is written.
   */
  method UrlEncode(str: seq<char>, encoded: array<char>)
    requires encoded.Length >= 1
    modifies encoded
    ensures var r := EncodeFit(str, encoded.Length);
            |r| < encoded.Length && encoded[..] == r + ['\0'] + old(encoded[..])[|r| + 1..]
  {
    ghost var original := encoded[..];
    var q, out := EncodeLoop(str, encoded);
    Splice(out, ['\0'], original[q..]);
    ghost var filled := encoded[..];
    encoded[q] := '\0';
    assert encoded[..] == filled[..q] + ['\0'] + filled[q + 1..];
    assert original[q..][1..] == original[q + 1..];
  }

  // ---------------------------------------------------------------------
  // next_power_of_2

  /**
   * `next_power_of_2`: the smallest power of two not below `n` for
   * 1 <= n <= 2^31; 0 maps to 0 and larger inputs wrap to 0.
   */
  function NextPowerOf2(n: bv32): (r: bv32)
    ensures n == 0 ==> r == 0
    ensures 0 < n <= 0x8000_0000 ==> r != 0 && r & (r - 1) == 0 && n <= r && r >> 1 < n
    ensures n > 0x8000_0000 ==> r == 0
  {
    var m0 := n - 1;
    var m1 := m0 | (m0 >> 1);
    var m2 := m1 | (m1 >> 2);
    var m3 := m2 | (m2 >> 4);
    var m4 := m3 | (m3 >> 8);
    var m5 := m4 | (m4 >> 16);
    m5 + 1
  }
}
