/** Bytes, fixed-width integers and the endian-aware readers and writers that every record
  * of the iTunesDB uses: the `Record.To*` readers and `MaybeSwap` (TrackDatabase.cs),
  * the byte-order aware writer, the record tag and the 12-byte record header. */
module Binary {
  import opened Wrappers

  type Byte = b: int | 0 <= b < 256
  type Bytes = seq<Byte>
  type Int16 = x: int | -0x8000 <= x < 0x8000
  type UInt16 = x: int | 0 <= x < 0x1_0000
  type Int32 = x: int | -0x8000_0000 <= x < 0x8000_0000
  type UInt32 = x: int | 0 <= x < 0x1_0000_0000
  type Int64 = x: int | -0x8000_0000_0000_0000 <= x < 0x8000_0000_0000_0000

  /** Why reading a database fails: the exceptions the readers of the source raise. */
  datatype ReadError =
    | EndOfStream                                  // BinaryReader ran out of bytes
    | NegativeCount                                // ReadBytes with a negative count
    | IndexOutOfRange                              // a field read past the end of a record body
    | UnexpectedTag(expected: string, found: string)
    | UnsupportedDetailType(detailType: int)
    | UnsupportedVersion(version: int)
    | UnknownDataSet(index: int)
    | MissingDataSet(index: int)                   // a data set the reader dereferences is not there

  type Read<T> = Result<T, ReadError>

  /** A value read from the front of a stream, and what is left of the stream. */
  datatype Parsed<T> = Parsed(value: T, rest: Bytes)

  /** Byte reversal: what `Utility.Swap` does to the bytes of a tag or an integer. */
  function Swap(s: Bytes): (r: Bytes)
    ensures |r| == |s|
    ensures forall i :: 0 <= i < |s| ==> r[i] == s[|s| - 1 - i]
  {
    if s == [] then [] else Swap(s[1..]) + [s[0]]
  }

  lemma SwapInvolution(s: Bytes)
    ensures Swap(Swap(s)) == s
  {
  }

  /** `MaybeSwap`: the bytes as stored on a big-endian database are reversed. */
  function MaybeSwap(s: Bytes, isBE: bool): (r: Bytes)
    ensures |r| == |s|
  {
    if isBE then Swap(s) else s
  }

  // The unsigned value of 2, 4 or 8 bytes given in stream order, in the database's byte
  // order: BitConverter reads little-endian, MaybeSwap reverses for big-endian.

  function Word16(b0: Byte, b1: Byte, isBE: bool): (u: nat)
    ensures u < 0x1_0000
  {
    if isBE then (b0 as int) * 0x100 + b1 else (b1 as int) * 0x100 + b0
  }

  function Word32(b0: Byte, b1: Byte, b2: Byte, b3: Byte, isBE: bool): (u: nat)
    ensures u < 0x1_0000_0000
  {
    if isBE then Word16(b0, b1, true) * 0x1_0000 + Word16(b2, b3, true)
    else Word16(b2, b3, false) * 0x1_0000 + Word16(b0, b1, false)
  }

  function Word64(b0: Byte, b1: Byte, b2: Byte, b3: Byte, b4: Byte, b5: Byte, b6: Byte, b7: Byte,
                  isBE: bool): (u: nat)
    ensures u < 0x1_0000_0000_0000_0000
  {
    if isBE then Word32(b0, b1, b2, b3, true) * 0x1_0000_0000 + Word32(b4, b5, b6, b7, true)
    else Word32(b4, b5, b6, b7, false) * 0x1_0000_0000 + Word32(b0, b1, b2, b3, false)
  }

  // Two's complement: the signed value of an unsigned bit pattern and back.

  function Signed16(u: UInt16): Int16 { if u >= 0x8000 then u - 0x1_0000 else u }
  function Unsigned16(x: Int16): UInt16 { if x < 0 then x + 0x1_0000 else x }
  function Signed32(u: UInt32): Int32 { if u >= 0x8000_0000 then u - 0x1_0000_0000 else u }
  function Unsigned32(x: Int32): UInt32 { if x < 0 then x + 0x1_0000_0000 else x }
  function Signed64(u: nat): Int64
    requires u < 0x1_0000_0000_0000_0000
  {
    if u >= 0x8000_0000_0000_0000 then u - 0x1_0000_0000_0000_0000 else u
  }

  // Readers at an offset of a record body: Record.ToInt16/ToUInt16/ToInt32/ToUInt32/ToInt64.

  function ToInt16(buf: Bytes, off: nat, isBE: bool): Int16
    requires off + 2 <= |buf|
  {
    Signed16(Word16(buf[off], buf[off + 1], isBE))
  }

  /** `(ushort) ToInt16 (...)`. */
  function ToUInt16(buf: Bytes, off: nat, isBE: bool): UInt16
    requires off + 2 <= |buf|
  {
    Unsigned16(ToInt16(buf, off, isBE))
  }

  function ToInt32(buf: Bytes, off: nat, isBE: bool): Int32
    requires off + 4 <= |buf|
  {
    Signed32(Word32(buf[off], buf[off + 1], buf[off + 2], buf[off + 3], isBE))
  }

  /** `(uint) ToInt32 (...)`. */
  function ToUInt32(buf: Bytes, off: nat, isBE: bool): UInt32
    requires off + 4 <= |buf|
  {
    Unsigned32(ToInt32(buf, off, isBE))
  }

  function ToInt64(buf: Bytes, off: nat, isBE: bool): Int64
    requires off + 8 <= |buf|
  {
    Signed64(Word64(buf[off], buf[off + 1], buf[off + 2], buf[off + 3],
                    buf[off + 4], buf[off + 5], buf[off + 6], buf[off + 7], isBE))
  }

  // Writers of the byte-order aware BinaryWriter: the bytes of u, least significant first,
  // reversed on a big-endian database. Each states that the matching reader gives the
  // value back.

  function Bytes16(u: UInt16, isBE: bool): (r: Bytes)
    ensures |r| == 2 && Word16(r[0], r[1], isBE) == u
  {
    if isBE then [u / 0x100, u % 0x100] else [u % 0x100, u / 0x100]
  }

  function Bytes32(u: UInt32, isBE: bool): (r: Bytes)
    ensures |r| == 4 && Word32(r[0], r[1], r[2], r[3], isBE) == u
  {
    var hi, lo := Bytes16(u / 0x1_0000, isBE), Bytes16(u % 0x1_0000, isBE);
    if isBE then hi + lo else lo + hi
  }

  function Bytes64(u: nat, isBE: bool): (r: Bytes)
    requires u < 0x1_0000_0000_0000_0000
    ensures |r| == 8 && Word64(r[0], r[1], r[2], r[3], r[4], r[5], r[6], r[7], isBE) == u
  {
    var hi, lo := Bytes32(u / 0x1_0000_0000, isBE), Bytes32(u % 0x1_0000_0000, isBE);
    if isBE then hi + lo else lo + hi
  }

  function WriteInt16(x: Int16, isBE: bool): (r: Bytes)
    ensures |r| == 2 && ToInt16(r, 0, isBE) == x
  {
    Bytes16(Unsigned16(x), isBE)
  }

  function WriteUInt16(x: UInt16, isBE: bool): (r: Bytes)
    ensures |r| == 2 && ToUInt16(r, 0, isBE) == x
  {
    Bytes16(x, isBE)
  }

  function WriteInt32(x: Int32, isBE: bool): (r: Bytes)
    ensures |r| == 4 && ToInt32(r, 0, isBE) == x
  {
    Bytes32(Unsigned32(x), isBE)
  }

  function WriteUInt32(x: UInt32, isBE: bool): (r: Bytes)
    ensures |r| == 4 && ToUInt32(r, 0, isBE) == x
  {
    Bytes32(x, isBE)
  }

  function WriteInt64(x: Int64, isBE: bool): (r: Bytes)
    ensures |r| == 8 && ToInt64(r, 0, isBE) == x
  {
    Bytes64(if x < 0 then x + 0x1_0000_0000_0000_0000 else x, isBE)
  }

  // Writing back a value just read reproduces its bytes.

  lemma DivModByte(hi: int, lo: int)
    requires 0 <= lo < 0x100
    ensures (hi * 0x100 + lo) / 0x100 == hi && (hi * 0x100 + lo) % 0x100 == lo
  {
  }

  lemma DivModHalf(hi: int, lo: int)
    requires 0 <= lo < 0x1_0000
    ensures (hi * 0x1_0000 + lo) / 0x1_0000 == hi && (hi * 0x1_0000 + lo) % 0x1_0000 == lo
  {
  }

  lemma Bytes16OfWord(b0: Byte, b1: Byte, isBE: bool)
    ensures Bytes16(Word16(b0, b1, isBE), isBE) == [b0, b1]
  {
    if isBE { DivModByte(b0 as int, b1 as int); } else { DivModByte(b1 as int, b0 as int); }
  }

  lemma Bytes32OfWord(b0: Byte, b1: Byte, b2: Byte, b3: Byte, isBE: bool)
    ensures Bytes32(Word32(b0, b1, b2, b3, isBE), isBE) == [b0, b1, b2, b3]
  {
    Bytes16OfWord(b0, b1, isBE);
    Bytes16OfWord(b2, b3, isBE);
    if isBE {
      DivModHalf(Word16(b0, b1, true), Word16(b2, b3, true));
    } else {
      DivModHalf(Word16(b2, b3, false), Word16(b0, b1, false));
    }
  }

  lemma WriteReadInt32(b: Bytes, isBE: bool)
    requires |b| == 4
    ensures WriteInt32(ToInt32(b, 0, isBE), isBE) == b
  {
    Bytes32OfWord(b[0], b[1], b[2], b[3], isBE);
    assert b == [b[0], b[1], b[2], b[3]];
  }

  /** The big-endian bytes of an int are its little-endian bytes reversed. */
  lemma Int32ByteOrder(x: Int32)
    ensures WriteInt32(x, true) == Swap(WriteInt32(x, false))
  {
  }

  /** A field read inside a prefix reads the same in any longer stream. */
  lemma Int32OfPrefix(a: Bytes, b: Bytes, off: nat, isBE: bool)
    requires off + 4 <= |a|
    ensures ToInt32(a + b, off, isBE) == ToInt32(a, off, isBE)
  {
  }

  /** A field read after a prefix reads the same without the prefix. */
  lemma Int32OfSuffix(a: Bytes, b: Bytes, off: nat, isBE: bool)
    requires |a| <= off && off + 4 <= |a| + |b|
    ensures ToInt32(a + b, off, isBE) == ToInt32(b, off - |a|, isBE)
  {
  }

  lemma Int16OfSuffix(a: Bytes, b: Bytes, off: nat, isBE: bool)
    requires |a| <= off && off + 2 <= |a| + |b|
    ensures ToInt16(a + b, off, isBE) == ToInt16(b, off - |a|, isBE)
  {
  }

  /** Fixed fields written one after another: each value as four bytes. */
  function Int32s(xs: seq<Int32>, isBE: bool): (r: Bytes)
    ensures |r| == 4 * |xs|
  {
    if xs == [] then [] else WriteInt32(xs[0], isBE) + Int32s(xs[1..], isBE)
  }

  /** The i-th field reads back at offset 4 * i, whatever follows the fields. */
  lemma {:induction false} Int32sRead(xs: seq<Int32>, isBE: bool, tail: Bytes, i: nat)
    requires i < |xs|
    ensures ToInt32(Int32s(xs, isBE) + tail, 4 * i, isBE) == xs[i]
  {
    var w := WriteInt32(xs[0], isBE);
    var rest := Int32s(xs[1..], isBE) + tail;
    Assoc(w, Int32s(xs[1..], isBE), tail);
    if i == 0 {
      Int32OfPrefix(w, rest, 0, isBE);
    } else {
      Int32OfSuffix(w, rest, 4 * i, isBE);
      Int32sRead(xs[1..], isBE, tail, i - 1);
    }
  }

  /** `new byte[n]`: padding. */
  function Zeros(n: nat): (r: Bytes)
    ensures |r| == n
    ensures forall i :: 0 <= i < n ==> r[i] == 0
  {
    seq(n, _ => 0)
  }

  /** A stored boolean flag: the byte `b ? 1 : 0`. */
  function FlagByte(b: bool): Byte
  {
    if b then 1 else 0
  }

  function Min(a: int, b: int): int
  {
    if a <= b then a else b
  }

  /** `BinaryReader.ReadBytes`: up to count bytes; fewer at the end of the stream. */
  function ReadBytes(s: Bytes, count: int): (r: Read<Parsed<Bytes>>)
    ensures count < 0 <==> r.Failure?
    ensures r.Success? ==> r.value.value + r.value.rest == s
    ensures r.Success? && count <= |s| ==> |r.value.value| == count
  {
    if count < 0 then Failure(NegativeCount)
    else
      var k := Min(count, |s|);
      assert s[..k] + s[k..] == s;
      Success(Parsed(s[..k], s[k..]))
  }

  // Record tags: four ASCII characters, stored reversed on a big-endian database.

  predicate IsTag(name: string)
  {
    |name| == 4 && forall i :: 0 <= i < 4 ==> name[i] as int < 128
  }

  /** `Encoding.ASCII.GetString`: a byte above 127 decodes to '?'. */
  function AsciiChar(b: Byte): char
  {
    if b < 128 then b as char else '?'
  }

  function AsciiString(s: Bytes): (r: string)
    ensures |r| == |s|
    ensures forall i :: 0 <= i < |s| ==> r[i] == AsciiChar(s[i])
  {
    seq(|s|, i requires 0 <= i < |s| => AsciiChar(s[i]))
  }

  /** `Record.WriteName`. */
  function WriteName(name: string, isBE: bool): (r: Bytes)
    requires IsTag(name)
    ensures |r| == 4
    ensures AsciiString(MaybeSwap(r, isBE)) == name
  {
    var plain: Bytes := [name[0] as int, name[1] as int, name[2] as int, name[3] as int];
    if isBE then [plain[3], plain[2], plain[1], plain[0]] else plain
  }

  /** The 12 bytes every record starts with: tag, HeaderOne, HeaderTwo. */
  datatype Header = Header(name: string, headerOne: Int32, headerTwo: Int32)

  function WriteHeader(name: string, headerOne: Int32, headerTwo: Int32, isBE: bool): (r: Bytes)
    requires IsTag(name)
    ensures |r| == 12
    ensures ToInt32(r, 4, isBE) == headerOne && ToInt32(r, 8, isBE) == headerTwo
  {
    WriteName(name, isBE) + (WriteInt32(headerOne, isBE) + WriteInt32(headerTwo, isBE))
  }

  /** The tag at the front of a stream, as `Record.ReadHeader` decodes it. */
  function ReadTag(s: Bytes, isBE: bool): (r: string)
    ensures |r| == Min(4, |s|)
  {
    AsciiString(MaybeSwap(s[..Min(4, |s|)], isBE))
  }

  lemma TagRoundTrip(name: string, isBE: bool, rest: Bytes)
    requires IsTag(name)
    ensures ReadTag(WriteName(name, isBE) + rest, isBE) == name
  {
    var s := WriteName(name, isBE) + rest;
    assert s[..4] == WriteName(name, isBE);
  }

  /** `Record.ReadHeader`: a record whose name is known fails on any other tag; a short
    * stream fails with EndOfStream. */
  function ReadHeader(s: Bytes, expected: Option<string>, isBE: bool): (r: Read<Parsed<Header>>)
    ensures r.Success? ==> |s| >= 12 && r.value.rest == s[12..]
    ensures r.Success? && expected.Some? ==> r.value.value.name == expected.value
  {
    var n := ReadTag(s, isBE);
    if expected.Some? && expected.value != n then Failure(UnexpectedTag(expected.value, n))
    else if |s| < 12 then Failure(EndOfStream)
    else Success(Parsed(Header(n, ToInt32(s, 4, isBE), ToInt32(s, 8, isBE)), s[12..]))
  }

  /** Reading a header whose tag is the expected one: the two int32 fields that follow. */
  lemma ReadHeaderAfterName(name: string, tail: Bytes, isBE: bool)
    requires IsTag(name) && |tail| >= 8
    ensures ReadHeader(WriteName(name, isBE) + tail, Some(name), isBE)
         == Success(Parsed(Header(name, ToInt32(tail, 0, isBE), ToInt32(tail, 4, isBE)), tail[8..]))
  {
    var s := WriteName(name, isBE) + tail;
    TagRoundTrip(name, isBE, tail);
    Int32OfSuffix(WriteName(name, isBE), tail, 4, isBE);
    Int32OfSuffix(WriteName(name, isBE), tail, 8, isBE);
    assert s[12..] == tail[8..];
  }

  lemma HeaderRoundTrip(name: string, headerOne: Int32, headerTwo: Int32, isBE: bool, rest: Bytes)
    requires IsTag(name)
    ensures ReadHeader(WriteHeader(name, headerOne, headerTwo, isBE) + rest, Some(name), isBE)
         == Success(Parsed(Header(name, headerOne, headerTwo), rest))
  {
    var tail := WriteInt32(headerOne, isBE) + WriteInt32(headerTwo, isBE);
    assert WriteHeader(name, headerOne, headerTwo, isBE) + rest == WriteName(name, isBE) + (tail + rest);
    ReadHeaderAfterName(name, tail + rest, isBE);
    Int32OfSuffix(WriteInt32(headerOne, isBE), WriteInt32(headerTwo, isBE) + rest, 4, isBE);
    assert (tail + rest)[8..] == rest;
  }

  /** An ASCII tag read from a stream is written back as the same four bytes. */
  lemma TagVerbatim(s: Bytes, isBE: bool)
    requires |s| >= 4 && forall i :: 0 <= i < 4 ==> s[i] < 128
    ensures IsTag(ReadTag(s, isBE)) && WriteName(ReadTag(s, isBE), isBE) == s[..4]
  {
    var q := s[..4];
    var plain: Bytes := if isBE then [q[3], q[2], q[1], q[0]] else q;
    assert MaybeSwap(q, isBE) == plain;
    var n := ReadTag(s, isBE);
    assert n == [plain[0] as char, plain[1] as char, plain[2] as char, plain[3] as char];
  }

  /** A header read from a stream whose tag is ASCII is written back as the same twelve bytes. */
  lemma HeaderVerbatim(s: Bytes, isBE: bool)
    requires |s| >= 12 && forall i :: 0 <= i < 4 ==> s[i] < 128
    ensures IsTag(ReadTag(s, isBE))
    ensures WriteHeader(ReadTag(s, isBE), ToInt32(s, 4, isBE), ToInt32(s, 8, isBE), isBE) == s[..12]
  {
    TagVerbatim(s, isBE);
    WriteReadInt32(s[4..8], isBE);
    WriteReadInt32(s[8..12], isBE);
    assert ToInt32(s[4..8], 0, isBE) == ToInt32(s, 4, isBE);
    assert ToInt32(s[8..12], 0, isBE) == ToInt32(s, 8, isBE);
    assert s[..12] == s[..4] + (s[4..8] + s[8..12]);
  }

  /** A reader that accepts any tag reads the same header. */
  lemma AnyHeaderRoundTrip(name: string, headerOne: Int32, headerTwo: Int32, isBE: bool, rest: Bytes)
    requires IsTag(name)
    ensures ReadHeader(WriteHeader(name, headerOne, headerTwo, isBE) + rest, None, isBE)
         == Success(Parsed(Header(name, headerOne, headerTwo), rest))
  {
    HeaderRoundTrip(name, headerOne, headerTwo, isBE, rest);
  }

  /** Reading a record whose name is known fails with UnexpectedTag exactly when the tag
    * at the front of the stream is a different one. */
  lemma TagMismatchFails(s: Bytes, name: string, isBE: bool)
    ensures ReadHeader(s, Some(name), isBE) == Failure(UnexpectedTag(name, ReadTag(s, isBE)))
        <==> ReadTag(s, isBE) != name
  {
  }

  /** Regrouping three parts and a tail, stated over plain sequences so that callers with
    * large concrete parts need not unfold them. */
  lemma Assoc(a: Bytes, b: Bytes, c: Bytes)
    ensures (a + b) + c == a + (b + c)
  {
  }

  lemma Regroup(a: Bytes, b: Bytes, c: Bytes, rest: Bytes)
    ensures (a + (b + c)) + rest == a + (b + (c + rest))
  {
  }

  /** Two ways of cutting the same bytes at the same place agree on both halves. */
  lemma AppendCancel(a: Bytes, b: Bytes, c: Bytes, d: Bytes)
    requires a + b == c + d && |a| == |c|
    ensures a == c && b == d
  {
    assert a == (a + b)[..|a|];
    assert c == (c + d)[..|c|];
    assert b == (a + b)[|a|..];
    assert d == (c + d)[|c|..];
  }

  // Records are saved one after another and read back one after another; these two
  // functions and the lemma connecting them are shared by every list of child records.

  /** The parts written back to back. */
  function Concat(parts: seq<Bytes>): (r: Bytes)
    ensures parts == [] ==> r == []
  {
    if parts == [] then [] else parts[0] + Concat(parts[1..])
  }

  /** A prefix one element longer is the prefix with that element after it. */
  lemma PrefixSnoc<T>(s: seq<T>, i: nat)
    requires i < |s|
    ensures s[..i + 1] == s[..i] + [s[i]]
  {
  }

  lemma {:induction false} ConcatAppend(parts: seq<Bytes>, p: Bytes)
    ensures Concat(parts + [p]) == Concat(parts) + p
  {
    if parts != [] {
      assert (parts + [p])[1..] == parts[1..] + [p];
      ConcatAppend(parts[1..], p);
    } else {
      assert parts + [p] == [p];
    }
  }

  lemma {:induction false} ConcatSameLength(a: seq<Bytes>, b: seq<Bytes>)
    requires |a| == |b| && forall i :: 0 <= i < |a| ==> |a[i]| == |b[i]|
    ensures |Concat(a)| == |Concat(b)|
  {
    if a != [] {
      ConcatSameLength(a[1..], b[1..]);
    }
  }

  /**
   * count records read one after another with read, as the record loops do; a count of zero
   * or less reads none, and the first record that fails to read fails the whole list.
   */
  function ReadMany<T>(read: Bytes -> Read<Parsed<T>>, s: Bytes, count: int): (r: Read<Parsed<seq<T>>>)
    ensures r.Success? && count >= 0 ==> |r.value.value| == count
    decreases count
  {
    if count <= 0 then Success(Parsed([], s))
    else
      var first :- read(s);
      var others :- ReadMany(read, first.rest, count - 1);
      Success(Parsed([first.value] + others.value, others.rest))
  }

  /** A list read that has already produced `acc`: `acc` goes in front of what follows. */
  function Prepend<T>(acc: seq<T>, r: Read<Parsed<seq<T>>>): Read<Parsed<seq<T>>>
  {
    match r
    case Success(p) => Success(Parsed(acc + p.value, p.rest))
    case Failure(e) => Failure(e)
  }

  /** The loop `for (int i = 0; i < count; i++) list.Add (read ())` of every record. */
  method ReadList<T>(read: Bytes -> Read<Parsed<T>>, s: Bytes, count: int) returns (r: Read<Parsed<seq<T>>>)
    ensures r == ReadMany(read, s, count)
  {
    var acc: seq<T> := [];
    var cur := s;
    var i := 0;
    var whole := ReadMany(read, s, count);
    if whole.Success? {
      assert [] + whole.value.value == whole.value.value;
    }
    while i < count
      invariant 0 <= i && (count >= 0 ==> i <= count)
      invariant ReadMany(read, s, count) == Prepend(acc, ReadMany(read, cur, count - i))
      decreases count - i
    {
      var first := read(cur);
      if first.Failure? {
        return Failure(first.error);
      }
      var tail := ReadMany(read, first.value.rest, count - i - 1);
      if tail.Success? {
        assert acc + ([first.value.value] + tail.value.value) == (acc + [first.value.value]) + tail.value.value;
      }
      acc := acc + [first.value.value];
      cur := first.value.rest;
      i := i + 1;
    }
    assert acc + [] == acc;
    return Success(Parsed(acc, cur));
  }

  /** What every single read guarantees holds of each element of a list read. */
  lemma {:induction false} ReadManyKeeps<T>(read: Bytes -> Read<Parsed<T>>, keep: T -> bool, s: Bytes, count: int)
    requires forall t :: read(t).Success? ==> keep(read(t).value.value)
    ensures var r := ReadMany(read, s, count);
      r.Success? ==> forall i :: 0 <= i < |r.value.value| ==> keep(r.value.value[i])
    decreases count
  {
    if count > 0 {
      var first := read(s);
      if first.Success? {
        ReadManyKeeps(read, keep, first.value.rest, count - 1);
      }
    }
  }

  /** Reading back records that each read back from their own bytes yields the records. */
  lemma {:induction false} ReadManyRoundTrip<T>(read: Bytes -> Read<Parsed<T>>, xs: seq<T>, parts: seq<Bytes>, rest: Bytes)
    requires |parts| == |xs|
    requires forall i, tail :: 0 <= i < |xs| ==> read(parts[i] + tail) == Success(Parsed(xs[i], tail))
    ensures ReadMany(read, Concat(parts) + rest, |xs|) == Success(Parsed(xs, rest))
  {
    if xs != [] {
      var tail := Concat(parts[1..]) + rest;
      assert Concat(parts) + rest == parts[0] + tail;
      assert read(parts[0] + tail) == Success(Parsed(xs[0], tail));
      ReadManyRoundTrip(read, xs[1..], parts[1..], rest);
      assert [xs[0]] + xs[1..] == xs;
    } else {
      assert Concat(parts) + rest == rest;
    }
  }

  /**
   * Records i, i + 1, ... up to count, one after another, where the reader may depend on
   * whether a record is the very first of the list (index 0), as for a playlist list whose
   * first playlist is the library.
   */
  function ReadIndexed<T>(read: bool -> Bytes -> Read<Parsed<T>>, s: Bytes, i: nat, count: int)
    : (r: Read<Parsed<seq<T>>>)
    ensures r.Success? && i <= count ==> |r.value.value| == count - i
    decreases count - i
  {
    if i >= count then Success(Parsed([], s))
    else
      var first :- read(i == 0)(s);
      var others :- ReadIndexed(read, first.rest, i + 1, count);
      Success(Parsed([first.value] + others.value, others.rest))
  }

  /** One record of an indexed list: a failure fails the list, a success goes in front
    * of the records after it. */
  lemma ReadIndexedStep<T>(read: bool -> Bytes -> Read<Parsed<T>>, s: Bytes, i: nat, count: int)
    requires i < count
    ensures var x := read(i == 0)(s);
      ReadIndexed(read, s, i, count)
      == if x.Failure? then Failure(x.error) else Prepend([x.value.value], ReadIndexed(read, x.value.rest, i + 1, count))
  {
  }

  /** One more element read: it moves from what is left to read onto what was read. */
  lemma ReadManyStep<T>(read: Bytes -> Read<Parsed<T>>, acc: seq<T>, cur: Bytes, count: int, v: T, rest: Bytes)
    requires count > 0 && read(cur) == Success(Parsed(v, rest))
    ensures Prepend(acc, ReadMany(read, cur, count)) == Prepend(acc + [v], ReadMany(read, rest, count - 1))
  {
    var tail := ReadMany(read, rest, count - 1);
    if tail.Success? {
      assert acc + ([v] + tail.value.value) == (acc + [v]) + tail.value.value;
    }
  }

  lemma PrependTwice<T>(a: seq<T>, b: seq<T>, r: Read<Parsed<seq<T>>>)
    ensures Prepend(a, Prepend(b, r)) == Prepend(a + b, r)
  {
    if r.Success? {
      assert a + (b + r.value.value) == (a + b) + r.value.value;
    }
  }

  /** What every single read guarantees of its record holds of each record of the list. */
  lemma {:induction false} ReadIndexedKeeps<T>(read: bool -> Bytes -> Read<Parsed<T>>, keep: (bool, T) -> bool,
                                               s: Bytes, i: nat, count: int)
    requires forall b, t :: read(b)(t).Success? ==> keep(b, read(b)(t).value.value)
    ensures var r := ReadIndexed(read, s, i, count);
      r.Success? ==> forall k :: 0 <= k < |r.value.value| ==> keep(i + k == 0, r.value.value[k])
    decreases count - i
  {
    if i < count {
      var first := read(i == 0)(s);
      if first.Success? {
        ReadIndexedKeeps(read, keep, first.value.rest, i + 1, count);
        var r := ReadIndexed(read, s, i, count);
        if r.Success? {
          var others := ReadIndexed(read, first.value.rest, i + 1, count);
          assert r.value.value == [first.value.value] + others.value.value;
          forall k | 0 <= k < |r.value.value| ensures keep(i + k == 0, r.value.value[k]) {
            if k > 0 {
              assert r.value.value[k] == others.value.value[k - 1];
              assert keep(i + 1 + (k - 1) == 0, others.value.value[k - 1]);
              assert (i + 1 + (k - 1) == 0) == (i + k == 0);
            }
          }
        }
      }
    }
  }

  /** Records that each read back from their own bytes read back as a list. */
  lemma {:induction false} ReadIndexedRoundTrip<T>(read: bool -> Bytes -> Read<Parsed<T>>, xs: seq<T>, parts: seq<Bytes>,
                                                   i: nat, rest: Bytes)
    requires |parts| == |xs|
    requires forall k, tail :: 0 <= k < |xs| ==> read(i + k == 0)(parts[k] + tail) == Success(Parsed(xs[k], tail))
    ensures ReadIndexed(read, Concat(parts) + rest, i, i + |xs|) == Success(Parsed(xs, rest))
    decreases |xs|
  {
    if xs != [] {
      var tail := Concat(parts[1..]) + rest;
      assert Concat(parts) + rest == parts[0] + tail;
      assert read(i == 0)(parts[0] + tail) == Success(Parsed(xs[0], tail));
      forall k, t | 0 <= k < |xs[1..]|
        ensures read(i + 1 + k == 0)(parts[1..][k] + t) == Success(Parsed(xs[1..][k], t))
      {
        assert read(i + (k + 1) == 0)(parts[k + 1] + t) == Success(Parsed(xs[k + 1], t));
      }
      ReadIndexedRoundTrip(read, xs[1..], parts[1..], i + 1, rest);
      assert [xs[0]] + xs[1..] == xs;
    } else {
      assert Concat(parts) + rest == rest;
    }
  }
}
