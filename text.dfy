/** The two text encodings the database uses: UTF-8 (`Encoding.UTF8`) and little-endian
  * UTF-16 without a byte-order mark (`new UnicodeEncoding (false, false)`). A Dafny `char`
  * is a Unicode scalar value, so every string can be encoded; malformed input decodes to
  * U+FFFD one byte (UTF-8) or one code unit (UTF-16) at a time. */
module Text {
  import opened Binary

  const Replacement: char := '�'

  predicate IsContinuation(b: Byte)
  {
    0x80 <= b < 0xC0
  }

  // UTF-8

  function Utf8Char(c: char): (r: Bytes)
    ensures 1 <= |r| <= 4
    ensures (c as int < 0x80) == (|r| == 1)
    ensures |r| == 1 ==> r[0] == c as int
    ensures |r| > 1 ==> r[0] >= 0xC2 && IsContinuation(r[1])
  {
    var x := c as int;
    if x < 0x80 then [x]
    else if x < 0x800 then [0xC0 + x / 64, 0x80 + x % 64]
    else if x < 0x1_0000 then [0xE0 + x / 4096, 0x80 + (x / 64) % 64, 0x80 + x % 64]
    else [0xF0 + x / 0x4_0000, 0x80 + (x / 4096) % 64, 0x80 + (x / 64) % 64, 0x80 + x % 64]
  }

  /** `Encoding.UTF8.GetBytes`. */
  function Utf8Encode(s: string): (r: Bytes)
    ensures |r| >= |s|
  {
    if s == [] then [] else Utf8Char(s[0]) + Utf8Encode(s[1..])
  }

  /** One character from the front of a non-empty byte sequence, and how many bytes it used. */
  function Utf8DecodeOne(s: Bytes): (r: (char, nat))
    requires |s| > 0
    ensures 1 <= r.1 <= |s|
  {
    var b0: int := s[0];
    if b0 < 0x80 then (b0 as char, 1)
    else if 0xC2 <= b0 < 0xE0 && |s| >= 2 && IsContinuation(s[1]) then
      (Utf8Two(b0, s[1]) as char, 2)
    else if 0xE0 <= b0 < 0xF0 && |s| >= 3 && IsContinuation(s[1]) && IsContinuation(s[2]) then
      var x := Utf8Three(b0, s[1], s[2]);
      if 0x800 <= x && !(0xD800 <= x < 0xE000) then (x as char, 3) else (Replacement, 1)
    else if 0xF0 <= b0 < 0xF5 && |s| >= 4 && IsContinuation(s[1]) && IsContinuation(s[2])
            && IsContinuation(s[3]) then
      var x := Utf8Four(b0, s[1], s[2], s[3]);
      if 0x1_0000 <= x < 0x11_0000 then (x as char, 4) else (Replacement, 1)
    else (Replacement, 1)
  }

  /** The scalar value carried by a two-, three- or four-byte UTF-8 sequence. */
  function Utf8Two(b0: int, b1: int): (x: int)
    requires 0xC2 <= b0 < 0xE0 && 0x80 <= b1 < 0xC0
    ensures 0x80 <= x < 0x800
  {
    (b0 - 0xC0) * 64 + (b1 - 0x80)
  }

  function Utf8Three(b0: int, b1: int, b2: int): int
  {
    (b0 - 0xE0) * 4096 + (b1 - 0x80) * 64 + (b2 - 0x80)
  }

  function Utf8Four(b0: int, b1: int, b2: int, b3: int): int
  {
    (b0 - 0xF0) * 0x4_0000 + (b1 - 0x80) * 4096 + (b2 - 0x80) * 64 + (b3 - 0x80)
  }

  /** `Encoding.UTF8.GetString`. */
  function Utf8Decode(s: Bytes): string
    decreases |s|
  {
    if s == [] then "" else
      var (c, n) := Utf8DecodeOne(s);
      [c] + Utf8Decode(s[n..])
  }

  lemma Utf8CharDecodes(c: char, rest: Bytes)
    ensures Utf8DecodeOne(Utf8Char(c) + rest) == (c, |Utf8Char(c)|)
  {
    var x := c as int;
    var s := Utf8Char(c) + rest;
    if x < 0x80 {
    } else if x < 0x800 {
      assert s[0] == 0xC0 + x / 64 && s[1] == 0x80 + x % 64;
      assert Utf8Two(s[0], s[1]) == x;
    } else if x < 0x1_0000 {
      assert s[0] == 0xE0 + x / 4096 && s[1] == 0x80 + (x / 64) % 64 && s[2] == 0x80 + x % 64;
      Utf8ThreeOf(x);
    } else {
      assert s[0] == 0xF0 + x / 0x4_0000 && s[1] == 0x80 + (x / 4096) % 64;
      assert s[2] == 0x80 + (x / 64) % 64 && s[3] == 0x80 + x % 64;
      Utf8FourOf(x);
    }
  }

  lemma Utf8ThreeOf(x: int)
    requires 0x800 <= x < 0x1_0000
    ensures Utf8Three(0xE0 + x / 4096, 0x80 + (x / 64) % 64, 0x80 + x % 64) == x
  {
    var q := x / 64;
    assert x == 64 * q + x % 64;
    assert q == 64 * (q / 64) + q % 64;
    assert x / 4096 == q / 64;
  }

  lemma Utf8FourOf(x: int)
    requires 0x1_0000 <= x < 0x11_0000
    ensures Utf8Four(0xF0 + x / 0x4_0000, 0x80 + (x / 4096) % 64, 0x80 + (x / 64) % 64, 0x80 + x % 64) == x
  {
    var q := x / 64;
    var p := q / 64;
    assert x == 64 * q + x % 64;
    assert q == 64 * p + q % 64;
    assert p == 64 * (p / 64) + p % 64;
    assert x / 4096 == p;
    assert x / 0x4_0000 == p / 64;
  }

  lemma {:induction false} Utf8RoundTrip(s: string)
    ensures Utf8Decode(Utf8Encode(s)) == s
  {
    if s != [] {
      var e := Utf8Encode(s);
      var head := Utf8Char(s[0]);
      Utf8CharDecodes(s[0], Utf8Encode(s[1..]));
      assert e[|head|..] == Utf8Encode(s[1..]);
      Utf8RoundTrip(s[1..]);
    }
  }

  /** The second UTF-8 byte of a string is zero exactly when the string starts with an
    * ASCII character followed by U+0000. */
  lemma Utf8SecondByteZero(s: string)
    requires |Utf8Encode(s)| >= 2
    ensures Utf8Encode(s)[1] == 0 <==> (s[0] as int < 0x80 && |s| >= 2 && s[1] == '\0')
  {
    var head := Utf8Char(s[0]);
    if |head| == 1 {
      assert s[1..] != [];
      assert Utf8Encode(s)[1] == Utf8Encode(s[1..])[0] == Utf8Char(s[1])[0];
    } else {
      assert Utf8Encode(s)[1] == head[1];
    }
  }

  // UTF-16, little endian

  function Utf16Char(c: char): (r: Bytes)
    ensures |r| == 2 || |r| == 4
    ensures (|r| == 2) == (c as int < 0x1_0000)
    ensures r[1] == 0 <==> c as int < 0x100
  {
    var x := c as int;
    if x < 0x1_0000 then [x % 256, x / 256]
    else
      var v := x - 0x1_0000;
      var hi, lo := 0xD800 + v / 1024, 0xDC00 + v % 1024;
      [hi % 256, hi / 256, lo % 256, lo / 256]
  }

  /** `UnicodeEncoding.GetBytes`. */
  function Utf16Encode(s: string): (r: Bytes)
    ensures |r| >= 2 * |s|
    ensures s != [] ==> (r[1] == 0 <==> s[0] as int < 0x100)
  {
    if s == [] then [] else Utf16Char(s[0]) + Utf16Encode(s[1..])
  }

  function Utf16DecodeOne(s: Bytes): (r: (char, nat))
    requires |s| > 0
    ensures 1 <= r.1 <= |s|
  {
    if |s| < 2 then (Replacement, 1)
    else
      var u := s[0] as int + 256 * (s[1] as int);
      if u < 0xD800 || 0xE000 <= u then (u as char, 2)
      else if u < 0xDC00 && |s| >= 4 && 0xDC <= s[3] < 0xE0 then
        var w := s[2] as int + 256 * (s[3] as int);
        (((u - 0xD800) * 1024 + (w - 0xDC00) + 0x1_0000) as char, 4)
      else (Replacement, 2)
  }

  /** `UnicodeEncoding.GetString`. */
  function Utf16Decode(s: Bytes): string
    decreases |s|
  {
    if s == [] then "" else
      var (c, n) := Utf16DecodeOne(s);
      [c] + Utf16Decode(s[n..])
  }

  lemma Utf16CharDecodes(c: char, rest: Bytes)
    ensures Utf16DecodeOne(Utf16Char(c) + rest) == (c, |Utf16Char(c)|)
  {
    var x := c as int;
    var s := Utf16Char(c) + rest;
    if x < 0x1_0000 {
      assert s[0] == x % 256 && s[1] == x / 256;
    } else {
      var v := x - 0x1_0000;
      var hi, lo := 0xD800 + v / 1024, 0xDC00 + v % 1024;
      assert s[0] == hi % 256 && s[1] == hi / 256 && s[2] == lo % 256 && s[3] == lo / 256;
      assert s[0] as int + 256 * (s[1] as int) == hi;
      assert s[2] as int + 256 * (s[3] as int) == lo;
    }
  }

  lemma {:induction false} Utf16RoundTrip(s: string)
    ensures Utf16Decode(Utf16Encode(s)) == s
  {
    if s != [] {
      var e := Utf16Encode(s);
      var head := Utf16Char(s[0]);
      Utf16CharDecodes(s[0], Utf16Encode(s[1..]));
      assert e[|head|..] == Utf16Encode(s[1..]);
      Utf16RoundTrip(s[1..]);
    }
  }
  // UTF-16 bytes read as UTF-8. The reader of string details decodes UTF-8 whenever a
  // value's second byte is not zero; the lemmas below show that the UTF-16 bytes of a
  // non-empty string never decode as UTF-8 to that string. The proof counts, on both
  // sides, the ASCII bytes, the bytes no UTF-8 sequence can contain (0xF5 and above) and
  // the encoded lengths.

  /** How many bytes of s lie in [lo, hi). */
  function CountBytes(s: Bytes, lo: int, hi: int): (n: nat)
    ensures n <= |s|
  {
    if s == [] then 0 else (if lo <= s[0] < hi then 1 else 0) + CountBytes(s[1..], lo, hi)
  }

  /** How many characters of v have a scalar value in [lo, hi). */
  function CountChars(v: string, lo: int, hi: int): (n: nat)
    ensures n <= |v|
  {
    if v == [] then 0 else (if lo <= v[0] as int < hi then 1 else 0) + CountChars(v[1..], lo, hi)
  }

  lemma {:induction false} CountBytesAppend(a: Bytes, b: Bytes, lo: int, hi: int)
    ensures CountBytes(a + b, lo, hi) == CountBytes(a, lo, hi) + CountBytes(b, lo, hi)
  {
    if a == [] {
      assert a + b == b;
    } else {
      assert (a + b)[1..] == a[1..] + b;
      CountBytesAppend(a[1..], b, lo, hi);
    }
  }

  lemma {:induction false} CountBytesNone(s: Bytes, lo: int, hi: int)
    requires forall i :: 0 <= i < |s| ==> !(lo <= s[i] < hi)
    ensures CountBytes(s, lo, hi) == 0
  {
    if s != [] {
      CountBytesNone(s[1..], lo, hi);
    }
  }

  /** One decoding step: it yields an ASCII character exactly when it uses one ASCII byte;
    * it uses a byte of 0xF5 or above only to yield U+FFFD; and the bytes it uses are as many
    * as the character's UTF-8 encoding has, or two fewer for a U+FFFD that stands for one
    * malformed byte. */
  lemma DecodeOneCounts(s: Bytes)
    requires |s| > 0
    ensures var (c, n) := Utf8DecodeOne(s);
      CountBytes(s[..n], 0, 0x80) == (if c as int < 0x80 then 1 else 0)
      && CountBytes(s[..n], 0xF5, 0x100) <= (if c == Replacement then 1 else 0)
      && n <= |Utf8Char(c)| <= n + (if c == Replacement then 2 else 0)
  {
    var (c, n) := Utf8DecodeOne(s);
    var t := s[..n];
    if n == 1 {
      assert t[1..] == [];
    } else {
      assert forall i :: 0 <= i < n ==> 0x80 <= t[i] < 0xF5;
      CountBytesNone(t, 0, 0x80);
      CountBytesNone(t, 0xF5, 0x100);
    }
  }

  /** The counts of a whole decoding, step by step. */
  lemma {:induction false} DecodeCounts(s: Bytes)
    ensures var d := Utf8Decode(s);
      CountChars(d, 0, 0x80) == CountBytes(s, 0, 0x80)
      && CountBytes(s, 0xF5, 0x100) <= CountChars(d, 0xFFFD, 0xFFFE)
      && |s| <= |Utf8Encode(d)| <= |s| + 2 * CountChars(d, 0xFFFD, 0xFFFE)
    decreases |s|
  {
    if s != [] {
      var (c, n) := Utf8DecodeOne(s);
      var rest := Utf8Decode(s[n..]);
      var d := [c] + rest;
      assert Utf8Decode(s) == d;
      assert d[0] == c && d[1..] == rest;
      DecodeOneCounts(s);
      DecodeCounts(s[n..]);
      assert s == s[..n] + s[n..];
      CountBytesAppend(s[..n], s[n..], 0, 0x80);
      CountBytesAppend(s[..n], s[n..], 0xF5, 0x100);
      assert |Utf8Encode(d)| == |Utf8Char(c)| + |Utf8Encode(rest)|;
    }
  }

  /** One character's UTF-16 bytes: two ASCII bytes for an ASCII character and at least one
    * for a character below U+0800; two bytes 0xF5 or above for U+FFFD; and one byte fewer
    * than its UTF-8 encoding for a character from U+0800 to U+FFFF, one more for an ASCII
    * character, as many otherwise. */
  lemma Utf16CharCounts(c: char)
    ensures var b, x := Utf16Char(c), c as int;
      CountBytes(b, 0, 0x80) >= (if x < 0x80 then 2 else if x < 0x800 then 1 else 0)
      && CountBytes(b, 0xF5, 0x100) >= (if c == Replacement then 2 else 0)
      && |b| + (if 0x800 <= x < 0x1_0000 then 1 else 0) == |Utf8Char(c)| + (if x < 0x80 then 1 else 0)
  {
    var b := Utf16Char(c);
    if c as int < 0x1_0000 {
      assert b[1..][1..] == [];
    }
  }

  /** The counts of a whole UTF-16 encoding, character by character. */
  lemma {:induction false} Utf16Counts(v: string)
    ensures var b := Utf16Encode(v);
      CountBytes(b, 0, 0x80) >= 2 * CountChars(v, 0, 0x80) + CountChars(v, 0x80, 0x800)
      && CountBytes(b, 0xF5, 0x100) >= 2 * CountChars(v, 0xFFFD, 0xFFFE)
      && |b| + CountChars(v, 0x800, 0x1_0000) == |Utf8Encode(v)| + CountChars(v, 0, 0x80)
  {
    if v != [] {
      Utf16CharCounts(v[0]);
      Utf16Counts(v[1..]);
      CountBytesAppend(Utf16Char(v[0]), Utf16Encode(v[1..]), 0, 0x80);
      CountBytesAppend(Utf16Char(v[0]), Utf16Encode(v[1..]), 0xF5, 0x100);
    }
  }

  /** The UTF-16 bytes of a non-empty string never decode as UTF-8 to that string. */
  lemma Utf16NeverReadsAsUtf8(v: string)
    requires v != []
    ensures Utf8Decode(Utf16Encode(v)) != v
  {
    var b := Utf16Encode(v);
    var d := Utf8Decode(b);
    DecodeCounts(b);
    Utf16Counts(v);
    if v[0] as int >= 0x1_0000 {
      // Only a four-byte sequence decodes to v[0], and its second byte must be a
      // continuation byte; the second UTF-16 byte of v[0] is that of a high surrogate.
      var head := Utf16Char(v[0]);
      assert b[1] == head[1];
      assert !IsContinuation(b[1]);
      assert d[0] != v[0];
    } else {
      // v[0] is ASCII, below U+0800, below U+10000 or U+FFFD, and each of these
      // unbalances one of the counts.
      assert CountChars(v, 0, 0x80) + CountChars(v, 0x80, 0x800) + CountChars(v, 0x800, 0x1_0000) > 0;
    }
  }
}
